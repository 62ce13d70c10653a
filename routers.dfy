/**
 * The request-layer logic of `server/routers.ts`: the case- and
 * accent-insensitive enum fields (`normalizeEnumValue`, `flexEnum`), the
 * role gate of `adminProcedure`, and the storage-key derivation of
 * `documentos.upload`.
 */
module Routers {
  import opened Wrappers
  import opened JsString

  // ---------------------------------------------------------------------------
  // normalizeEnumValue: NFD, drop U+0300..U+036F, trim, lower-case
  // ---------------------------------------------------------------------------

  /** The Combining Diacritical Marks block that the regular expression removes. */
  predicate IsCombiningMark(c: char) {
    '\U{300}' <= c <= '\U{36F}'
  }

  /** `replace(/[̀-ͯ]/g, "")`. */
  function StripMarks(s: string): string
  {
    if s == [] then []
    else (if IsCombiningMark(s[0]) then [] else [s[0]]) + StripMarks(s[1..])
  }

  function NormalizeEnumValue(value: string): string {
    Lower(Trim(StripMarks(Nfd(value))))
  }

  lemma {:induction false} StripMarksAppend(a: string, b: string)
    ensures StripMarks(a + b) == StripMarks(a) + StripMarks(b)
  {
    if a != [] {
      assert (a + b)[0] == a[0] && (a + b)[1..] == a[1..] + b;
      StripMarksAppend(a[1..], b);
    } else {
      assert a + b == b;
    }
  }

  lemma {:induction false} StripMarksCommutesWithLower(s: string)
    ensures StripMarks(Lower(s)) == Lower(StripMarks(s))
  {
    if s != [] {
      StripMarksCommutesWithLower(s[1..]);
      assert Lower(s)[1..] == Lower(s[1..]);
      LowerAppend(if IsCombiningMark(s[0]) then [] else [s[0]], StripMarks(s[1..]));
    }
  }

  lemma {:induction false} TrimStartCommutesWithLower(s: string)
    ensures TrimStart(Lower(s)) == Lower(TrimStart(s))
  {
    if s != [] && IsWhitespace(s[0]) {
      assert Lower(s)[1..] == Lower(s[1..]);
      TrimStartCommutesWithLower(s[1..]);
    }
  }

  lemma {:induction false} TrimEndCommutesWithLower(s: string)
    ensures TrimEnd(Lower(s)) == Lower(TrimEnd(s))
  {
    if s != [] && IsWhitespace(s[|s| - 1]) {
      assert Lower(s)[..|s| - 1] == Lower(s[..|s| - 1]);
      TrimEndCommutesWithLower(s[..|s| - 1]);
    }
  }

  /** Letter case never matters: lower-casing the input first changes nothing. */
  lemma NormalizeIgnoresCase(s: string)
    ensures NormalizeEnumValue(Lower(s)) == NormalizeEnumValue(s)
  {
    var n := Nfd(s);
    NfdCommutesWithLower(s);
    StripMarksCommutesWithLower(n);
    var m := StripMarks(n);
    TrimStartCommutesWithLower(m);
    TrimEndCommutesWithLower(TrimStart(m));
    LowerIdempotent(Trim(m));
  }

  lemma MarkDecomposesToItself(mark: char)
    requires IsCombiningMark(mark)
    ensures Nfd([mark]) == [mark] && StripMarks([mark]) == []
  {
    DecomposeNonLetter(mark);
    assert [mark][1..] == [];
  }

  lemma MarkVanishes(a: string, mark: char, b: string)
    requires IsCombiningMark(mark)
    ensures StripMarks(Nfd(a + [mark] + b)) == StripMarks(Nfd(a + b))
  {
    var na, nb := Nfd(a), Nfd(b);
    MarkDecomposesToItself(mark);
    NfdAppend(a + [mark], b);
    NfdAppend(a, [mark]);
    NfdAppend(a, b);
    assert Nfd(a + [mark] + b) == na + [mark] + nb;
    StripMarksAppend(na + [mark], nb);
    StripMarksAppend(na, [mark]);
    StripMarksAppend(na, nb);
  }

  /** A combining mark inserted anywhere is dropped again. */
  lemma NormalizeIgnoresMarks(a: string, mark: char, b: string)
    requires IsCombiningMark(mark)
    ensures NormalizeEnumValue(a + [mark] + b) == NormalizeEnumValue(a + b)
  {
    MarkVanishes(a, mark, b);
  }

  lemma NfdAroundChar(a: string, c: char, b: string)
    ensures Nfd(a + [c] + b) == Nfd(a) + Nfd([c]) + Nfd(b)
  {
    NfdAppend(a + [c], b);
    NfdAppend(a, [c]);
  }

  lemma StripMarksOfThree(x: string, y: string, z: string)
    ensures StripMarks(x + y + z) == StripMarks(x) + StripMarks(y) + StripMarks(z)
  {
    StripMarksAppend(x + y, z);
    StripMarksAppend(x, y);
  }

  lemma BaseAndMarkStrip(base: char, mark: char)
    requires IsCombiningMark(mark) && base < '\U{C0}'
    ensures Nfd([base]) == [base] && StripMarks([base, mark]) == [base] && StripMarks([base]) == [base]
  {
    DecomposeNonLetter(base);
    assert [base][1..] == [];
    assert [mark][1..] == [];
    assert StripMarks([mark]) == [];
    assert StripMarks([base]) == [base];
    assert [base, mark][1..] == [mark];
    assert StripMarks([base, mark]) == [base] + StripMarks([mark]);
  }

  lemma FoldsUnderStripMarks(a: string, c: char, base: char, mark: char, b: string)
    requires Nfd([c]) == [base, mark] && IsCombiningMark(mark) && base < '\U{C0}'
    ensures StripMarks(Nfd(a + [c] + b)) == StripMarks(Nfd(a + [base] + b))
  {
    BaseAndMarkStrip(base, mark);
    NfdAroundChar(a, c, b);
    NfdAroundChar(a, base, b);
    StripMarksOfThree(Nfd(a), [base, mark], Nfd(b));
    StripMarksOfThree(Nfd(a), [base], Nfd(b));
  }

  /** A precomposed letter normalises like its base letter: "í" like "i". */
  lemma NormalizeFoldsPrecomposed(a: string, c: char, base: char, mark: char, b: string)
    requires Nfd([c]) == [base, mark] && IsCombiningMark(mark) && base < '\U{C0}'
    ensures NormalizeEnumValue(a + [c] + b) == NormalizeEnumValue(a + [base] + b)
  {
    FoldsUnderStripMarks(a, c, base, mark, b);
  }

  lemma {:induction false} WhitespaceIsStable(w: string)
    requires AllWhitespace(w)
    ensures Nfd(w) == w && StripMarks(w) == w
  {
    if w != [] {
      assert AllWhitespace(w[1..]);
      assert IsWhitespace(w[0]);
      DecomposeNonLetter(w[0]);
      WhitespaceIsStable(w[1..]);
      assert w == [w[0]] + w[1..];
    }
  }

  /** Whitespace around the input never matters. */
  lemma NormalizeIgnoresSurroundingWhitespace(w1: string, s: string, w2: string)
    requires AllWhitespace(w1) && AllWhitespace(w2)
    ensures NormalizeEnumValue(w1 + s + w2) == NormalizeEnumValue(s)
  {
    WhitespaceIsStable(w1);
    WhitespaceIsStable(w2);
    NfdAppend(w1 + s, w2);
    NfdAppend(w1, s);
    var n := Nfd(s);
    StripMarksAppend(w1 + n, w2);
    StripMarksAppend(w1, n);
    assert Nfd(w1 + s + w2) == w1 + n + w2;
    assert StripMarks(w1 + n + w2) == w1 + StripMarks(n) + w2;
    TrimIgnoresSurroundingWhitespace(w1, StripMarks(n), w2);
  }

  /** Printable ASCII other than the space. */
  predicate IsPlainToken(s: string) {
    forall i :: 0 <= i < |s| ==> '!' <= s[i] <= '~'
  }

  lemma {:induction false} PlainTokenIsStable(s: string)
    requires IsPlainToken(s)
    ensures Nfd(s) == s && StripMarks(s) == s
  {
    if s != [] {
      assert IsPlainToken(s[1..]);
      DecomposeNonLetter(s[0]);
      PlainTokenIsStable(s[1..]);
      assert s == [s[0]] + s[1..];
    }
  }

  /** On a plain ASCII token the normal form is just the lower-case form. */
  lemma PlainTokenNormalizesToLower(s: string)
    requires IsPlainToken(s)
    ensures NormalizeEnumValue(s) == Lower(s)
  {
    PlainTokenIsStable(s);
    if s != [] {
      assert !IsWhitespace(s[0]) && !IsWhitespace(s[|s| - 1]);
    }
    assert TrimStart(s) == s;
    assert Trim(s) == s;
  }

  // ---------------------------------------------------------------------------
  // flexEnum: the normalised-to-canonical table and the lookup through it
  // ---------------------------------------------------------------------------

  /** The table `values.forEach(v => map.set(normalizeEnumValue(v), v))` leaves
      behind: declared values are entered in order, so a later value replaces
      an earlier one with the same normal form. */
  function CanonicalTable(values: seq<string>): map<string, string>
    decreases |values|
  {
    if values == [] then map[]
    else
      var last := values[|values| - 1];
      CanonicalTable(values[..|values| - 1])[NormalizeEnumValue(last) := last]
  }

  /** The `forEach` loop that fills the `Map`. */
  method BuildCanonicalTable(values: seq<string>) returns (table: map<string, string>)
    ensures table == CanonicalTable(values)
  {
    table := map[];
    for i := 0 to |values|
      invariant table == CanonicalTable(values[..i])
    {
      assert values[..i + 1][..i] == values[..i];
      table := table[NormalizeEnumValue(values[i]) := values[i]];
    }
    assert values[..|values|] == values;
  }

  /** The table is keyed by exactly the normal forms of the declared values. */
  lemma {:induction false} CanonicalTableKeys(values: seq<string>)
    ensures CanonicalTable(values).Keys == set v | v in values :: NormalizeEnumValue(v)
    decreases |values|
  {
    if values != [] {
      var init := values[..|values| - 1];
      CanonicalTableKeys(init);
      assert values == init + [values[|values| - 1]];
    }
  }

  /** Every entry maps a normal form to a declared value having that normal form. */
  lemma {:induction false} CanonicalTableSound(values: seq<string>, key: string)
    requires key in CanonicalTable(values)
    ensures CanonicalTable(values)[key] in values
    ensures NormalizeEnumValue(CanonicalTable(values)[key]) == key
    decreases |values|
  {
    var init := values[..|values| - 1];
    var last := values[|values| - 1];
    if key != NormalizeEnumValue(last) {
      CanonicalTableSound(init, key);
    }
  }

  /** The entry for a normal form is the LAST declared value having it. */
  lemma {:induction false} CanonicalTableLastWins(values: seq<string>, i: nat)
    requires i < |values|
    requires forall j :: i < j < |values| ==> NormalizeEnumValue(values[j]) != NormalizeEnumValue(values[i])
    ensures NormalizeEnumValue(values[i]) in CanonicalTable(values)
    ensures CanonicalTable(values)[NormalizeEnumValue(values[i])] == values[i]
    decreases |values|
  {
    if i < |values| - 1 {
      var init := values[..|values| - 1];
      assert init[i] == values[i];
      CanonicalTableLastWins(init, i);
    }
  }

  ghost predicate NormalizesInjectively(values: seq<string>) {
    forall i, j :: 0 <= i < j < |values| ==> NormalizeEnumValue(values[i]) != NormalizeEnumValue(values[j])
  }

  /** The schema `flexEnum(values, message)` returns: the declared values,
      the optional custom message and the table built from the values. */
  datatype FlexEnum = FlexEnum(values: seq<string>, message: Option<string>, table: map<string, string>) {
    ghost predicate Valid() {
      |values| >= 1 && table == CanonicalTable(values)
    }
  }

  method MakeFlexEnum(values: seq<string>, message: Option<string>) returns (e: FlexEnum)
    requires |values| >= 1
    ensures e.Valid() && e.values == values && e.message == message
  {
    var table := BuildCanonicalTable(values);
    e := FlexEnum(values, message, table);
  }

  const INVALID_PREFIX: string := "Valor inválido. Use um dos seguintes: "

  function RejectionMessage(e: FlexEnum): string {
    e.message.GetOr(INVALID_PREFIX + Join(e.values, ", "))
  }

  /** The schema's `transform`: look the normalised input up; a missing entry
      or a falsy (empty) canonical value adds the validation issue. */
  function ParseFlexEnum(e: FlexEnum, input: string): Result<string, string> {
    var key := NormalizeEnumValue(input);
    if key in e.table && e.table[key] != "" then Ok(e.table[key])
    else Err(RejectionMessage(e))
  }

  /** An accepted input always yields one of the declared values, and one with
      the same normal form as the input. */
  lemma ParseYieldsDeclaredValue(e: FlexEnum, input: string)
    requires e.Valid() && ParseFlexEnum(e, input).Ok?
    ensures ParseFlexEnum(e, input).value in e.values
    ensures NormalizeEnumValue(ParseFlexEnum(e, input).value) == NormalizeEnumValue(input)
  {
    CanonicalTableSound(e.values, NormalizeEnumValue(input));
  }

  /** An input whose normal form no declared value has is rejected with the
      custom message, or else the list of allowed values. */
  lemma ParseRejectsUnknown(e: FlexEnum, input: string)
    requires e.Valid()
    requires forall v :: v in e.values ==> NormalizeEnumValue(v) != NormalizeEnumValue(input)
    ensures ParseFlexEnum(e, input) == Err(RejectionMessage(e))
    ensures e.message.None? ==> ParseFlexEnum(e, input) == Err(INVALID_PREFIX + Join(e.values, ", "))
  {
    CanonicalTableKeys(e.values);
  }

  /** When the declared values normalise injectively, each non-empty one is
      accepted and comes back unchanged. */
  lemma ParseAcceptsDeclared(e: FlexEnum, i: nat)
    requires e.Valid() && NormalizesInjectively(e.values)
    requires i < |e.values| && e.values[i] != ""
    ensures ParseFlexEnum(e, e.values[i]) == Ok(e.values[i])
  {
    CanonicalTableLastWins(e.values, i);
  }

  /** The schema looks at nothing but the normal form of the input. */
  lemma ParseSeesOnlyNormalForm(e: FlexEnum, x: string, y: string)
    requires NormalizeEnumValue(x) == NormalizeEnumValue(y)
    ensures ParseFlexEnum(e, x) == ParseFlexEnum(e, y)
  {
  }

  /** Inputs that differ only in letter case, in combining marks or in
      surrounding whitespace parse alike. */
  lemma ParseIgnoresCaseMarksAndWhitespace(e: FlexEnum, a: string, mark: char, b: string, w1: string, w2: string)
    requires IsCombiningMark(mark) && AllWhitespace(w1) && AllWhitespace(w2)
    ensures ParseFlexEnum(e, Lower(a)) == ParseFlexEnum(e, a)
    ensures ParseFlexEnum(e, a + [mark] + b) == ParseFlexEnum(e, a + b)
    ensures ParseFlexEnum(e, w1 + a + w2) == ParseFlexEnum(e, a)
  {
    NormalizeIgnoresCase(a);
    NormalizeIgnoresMarks(a, mark, b);
    NormalizeIgnoresSurroundingWhitespace(w1, a, w2);
  }

  // ---------------------------------------------------------------------------
  // The declared value lists
  // ---------------------------------------------------------------------------

  const UserRoles: seq<string> := ["admin", "gestor", "consultor", "inspetor", "leiturista", "visualizador"]
  const CategoriaRisco: seq<string> := ["A", "B", "C", "D", "E"]
  const DanoPotencial: seq<string> := ["Alto", "Medio", "Baixo"]
  const BarragemStatus: seq<string> := ["ativa", "inativa", "em_construcao"]
  const InstrumentoStatus: seq<string> := ["ativo", "inativo", "manutencao"]
  const LeituraOrigem: seq<string> := ["mobile", "web", "automatico"]
  const ChecklistCreateTypes: seq<string> := ["mensal", "especial", "emergencial"]
  const ChecklistTypes: seq<string> := ["ISR", "ISE", "ISP", "mensal", "especial", "emergencial"]
  const ChecklistStatus: seq<string> := ["em_andamento", "concluida", "cancelada", "concluido", "aprovado"]
  const RespostaOptions: seq<string> := ["NO", "PV", "PC", "AM", "DM", "DS"]
  const OcorrenciaSeveridade: seq<string> := ["baixa", "media", "alta", "critica"]
  const OcorrenciaStatus: seq<string> := ["pendente", "em_analise", "em_acao", "concluida", "cancelada"]
  const ManutencaoTipo: seq<string> := ["preventiva", "corretiva", "preditiva"]
  const ManutencaoStatus: seq<string> := ["planejada", "em_andamento", "concluida", "cancelada"]

  const DeclaredLists: seq<seq<string>> := [
    UserRoles, CategoriaRisco, DanoPotencial, BarragemStatus, InstrumentoStatus,
    LeituraOrigem, ChecklistCreateTypes, ChecklistTypes, ChecklistStatus,
    RespostaOptions, OcorrenciaSeveridade, OcorrenciaStatus, ManutencaoTipo,
    ManutencaoStatus
  ]

  // The declared lists are checked by evaluation: membership in a literal
  // list or string unfolds one element at a time, and so does the
  // index-walking comparison below.

  /** The lower-case forms of `a` and `b` differ in length or at some
      position from `i` on. */
  predicate LowerDiffersFrom(a: string, b: string, i: nat)
    decreases |a| - i
  {
    |a| != |b| || (i < |a| && (LowerChar(a[i]) != LowerChar(b[i]) || LowerDiffersFrom(a, b, i + 1)))
  }

  /** `IsPlainToken` stated on members rather than positions. */
  predicate PlainChars(s: string) {
    forall c :: c in s ==> '!' <= c <= '~'
  }

  lemma PlainCharsArePlain(s: string)
    requires PlainChars(s)
    ensures IsPlainToken(s)
  {
    assert forall i :: 0 <= i < |s| ==> s[i] in s;
  }

  /** Every value is a non-empty plain token. */
  predicate AllPlain(values: seq<string>) {
    forall v :: v in values ==> v != "" && PlainChars(v)
  }

  /** Value `i` differs after lower-casing from every value from index `j`
      on, and so does every later pair. */
  predicate AllPairsDiffer(values: seq<string>, i: nat, j: nat)
    decreases |values| - i, |values| - j
  {
    if i >= |values| then true
    else if j >= |values| then AllPairsDiffer(values, i + 1, i + 2)
    else LowerDiffersFrom(values[i], values[j], 0) && AllPairsDiffer(values, i, j + 1)
  }

  lemma {:induction false} LowerDiffers(a: string, b: string, i: nat)
    requires LowerDiffersFrom(a, b, i)
    ensures Lower(a) != Lower(b)
    decreases |a| - i
  {
    if |a| == |b| {
      if LowerChar(a[i]) != LowerChar(b[i]) {
        assert Lower(a)[i] != Lower(b)[i];
      } else {
        LowerDiffers(a, b, i + 1);
      }
    }
  }

  lemma {:induction false} AllPairsDifferAt(values: seq<string>, i: nat, j: nat, a: nat, b: nat)
    requires AllPairsDiffer(values, i, j) && i < j
    requires (a == i && j <= b < |values|) || (i < a < b < |values|)
    ensures Lower(values[a]) != Lower(values[b])
    decreases |values| - i, |values| - j
  {
    if j >= |values| {
      AllPairsDifferAt(values, i + 1, i + 2, a, b);
    } else if a == i && b == j {
      LowerDiffers(values[a], values[b], 0);
    } else {
      AllPairsDifferAt(values, i, j + 1, a, b);
    }
  }

  /** Non-empty plain tokens whose lower-case forms are pairwise distinct
      normalise injectively. */
  lemma PlainTokensNormalizeInjectively(values: seq<string>)
    requires AllPlain(values) && AllPairsDiffer(values, 0, 1)
    ensures NormalizesInjectively(values)
    ensures forall i :: 0 <= i < |values| ==> values[i] != ""
  {
    forall i, j | 0 <= i < j < |values|
      ensures NormalizeEnumValue(values[i]) != NormalizeEnumValue(values[j])
    {
      assert values[i] in values && values[j] in values;
      PlainCharsArePlain(values[i]);
      PlainCharsArePlain(values[j]);
      PlainTokenNormalizesToLower(values[i]);
      PlainTokenNormalizesToLower(values[j]);
      AllPairsDifferAt(values, 0, 1, i, j);
    }
    assert forall i :: 0 <= i < |values| ==> values[i] in values;
  }

  /** Each declared list is made of non-empty plain tokens that differ even
      after lower-casing; one evaluation per list. */
  predicate PlainAndDistinct(values: seq<string>) {
    AllPlain(values) && AllPairsDiffer(values, 0, 1)
  }

  lemma UserRolesPlainAndDistinct()
    ensures PlainAndDistinct(UserRoles)
  {
    assert AllPairsDiffer(UserRoles, 4, 5);
    assert AllPairsDiffer(UserRoles, 3, 4);
    assert AllPairsDiffer(UserRoles, 2, 3);
    assert AllPairsDiffer(UserRoles, 1, 2);
    assert AllPairsDiffer(UserRoles, 0, 1);
    assert PlainChars(UserRoles[0]) && PlainChars(UserRoles[1]) && PlainChars(UserRoles[2]);
    assert PlainChars(UserRoles[3]) && PlainChars(UserRoles[4]) && PlainChars(UserRoles[5]);
  }

  lemma CategoriaRiscoPlainAndDistinct()
    ensures PlainAndDistinct(CategoriaRisco)
  {
    assert AllPairsDiffer(CategoriaRisco, 3, 4);
    assert AllPairsDiffer(CategoriaRisco, 2, 3);
    assert AllPairsDiffer(CategoriaRisco, 1, 2);
    assert AllPairsDiffer(CategoriaRisco, 0, 1);
    assert PlainChars(CategoriaRisco[0]) && PlainChars(CategoriaRisco[1]) && PlainChars(CategoriaRisco[2]);
    assert PlainChars(CategoriaRisco[3]) && PlainChars(CategoriaRisco[4]);
  }

  lemma DanoPotencialPlainAndDistinct()
    ensures PlainAndDistinct(DanoPotencial)
  {
    assert AllPairsDiffer(DanoPotencial, 1, 2);
    assert AllPairsDiffer(DanoPotencial, 0, 1);
    assert PlainChars(DanoPotencial[0]) && PlainChars(DanoPotencial[1]) && PlainChars(DanoPotencial[2]);
  }

  lemma BarragemStatusPlainAndDistinct()
    ensures PlainAndDistinct(BarragemStatus)
  {
    assert AllPairsDiffer(BarragemStatus, 1, 2);
    assert AllPairsDiffer(BarragemStatus, 0, 1);
    assert PlainChars(BarragemStatus[0]) && PlainChars(BarragemStatus[1]) && PlainChars(BarragemStatus[2]);
  }

  lemma InstrumentoStatusPlainAndDistinct()
    ensures PlainAndDistinct(InstrumentoStatus)
  {
    assert AllPairsDiffer(InstrumentoStatus, 1, 2);
    assert AllPairsDiffer(InstrumentoStatus, 0, 1);
    assert PlainChars(InstrumentoStatus[0]) && PlainChars(InstrumentoStatus[1]) && PlainChars(InstrumentoStatus[2]);
  }

  lemma LeituraOrigemPlainAndDistinct()
    ensures PlainAndDistinct(LeituraOrigem)
  {
    assert AllPairsDiffer(LeituraOrigem, 1, 2);
    assert AllPairsDiffer(LeituraOrigem, 0, 1);
    assert PlainChars(LeituraOrigem[0]) && PlainChars(LeituraOrigem[1]) && PlainChars(LeituraOrigem[2]);
  }

  lemma ChecklistCreateTypesPlainAndDistinct()
    ensures PlainAndDistinct(ChecklistCreateTypes)
  {
    assert AllPairsDiffer(ChecklistCreateTypes, 1, 2);
    assert AllPairsDiffer(ChecklistCreateTypes, 0, 1);
    assert PlainChars(ChecklistCreateTypes[0]) && PlainChars(ChecklistCreateTypes[1]) && PlainChars(ChecklistCreateTypes[2]);
  }

  lemma ChecklistTypesPlainAndDistinct()
    ensures PlainAndDistinct(ChecklistTypes)
  {
    assert AllPairsDiffer(ChecklistTypes, 4, 5);
    assert AllPairsDiffer(ChecklistTypes, 3, 4);
    assert AllPairsDiffer(ChecklistTypes, 2, 3);
    assert AllPairsDiffer(ChecklistTypes, 1, 2);
    assert AllPairsDiffer(ChecklistTypes, 0, 1);
    assert PlainChars(ChecklistTypes[0]) && PlainChars(ChecklistTypes[1]) && PlainChars(ChecklistTypes[2]);
    assert PlainChars(ChecklistTypes[3]) && PlainChars(ChecklistTypes[4]) && PlainChars(ChecklistTypes[5]);
  }

  lemma ChecklistStatusPlainAndDistinct()
    ensures PlainAndDistinct(ChecklistStatus)
  {
    assert LowerDiffersFrom(ChecklistStatus[1], ChecklistStatus[3], 5);
    assert AllPairsDiffer(ChecklistStatus, 3, 4);
    assert AllPairsDiffer(ChecklistStatus, 2, 3);
    assert AllPairsDiffer(ChecklistStatus, 1, 2);
    assert AllPairsDiffer(ChecklistStatus, 0, 1);
    assert PlainChars(ChecklistStatus[0]) && PlainChars(ChecklistStatus[1]) && PlainChars(ChecklistStatus[2]);
    assert PlainChars(ChecklistStatus[3]) && PlainChars(ChecklistStatus[4]);
  }

  lemma RespostaOptionsPlainAndDistinct()
    ensures PlainAndDistinct(RespostaOptions)
  {
    assert AllPairsDiffer(RespostaOptions, 4, 5);
    assert AllPairsDiffer(RespostaOptions, 3, 4);
    assert AllPairsDiffer(RespostaOptions, 2, 3);
    assert AllPairsDiffer(RespostaOptions, 1, 2);
    assert AllPairsDiffer(RespostaOptions, 0, 1);
    assert PlainChars(RespostaOptions[0]) && PlainChars(RespostaOptions[1]) && PlainChars(RespostaOptions[2]);
    assert PlainChars(RespostaOptions[3]) && PlainChars(RespostaOptions[4]) && PlainChars(RespostaOptions[5]);
  }

  lemma OcorrenciaSeveridadePlainAndDistinct()
    ensures PlainAndDistinct(OcorrenciaSeveridade)
  {
    assert AllPairsDiffer(OcorrenciaSeveridade, 2, 3);
    assert AllPairsDiffer(OcorrenciaSeveridade, 1, 2);
    assert AllPairsDiffer(OcorrenciaSeveridade, 0, 1);
    assert PlainChars(OcorrenciaSeveridade[0]) && PlainChars(OcorrenciaSeveridade[1]) && PlainChars(OcorrenciaSeveridade[2]);
    assert PlainChars(OcorrenciaSeveridade[3]);
  }

  lemma OcorrenciaStatusPlainAndDistinct()
    ensures PlainAndDistinct(OcorrenciaStatus)
  {
    assert AllPairsDiffer(OcorrenciaStatus, 3, 4);
    assert AllPairsDiffer(OcorrenciaStatus, 2, 3);
    assert AllPairsDiffer(OcorrenciaStatus, 1, 2);
    assert AllPairsDiffer(OcorrenciaStatus, 0, 1);
    assert PlainChars(OcorrenciaStatus[0]) && PlainChars(OcorrenciaStatus[1]) && PlainChars(OcorrenciaStatus[2]);
    assert PlainChars(OcorrenciaStatus[3]) && PlainChars(OcorrenciaStatus[4]);
  }

  lemma ManutencaoTipoPlainAndDistinct()
    ensures PlainAndDistinct(ManutencaoTipo)
  {
    assert AllPairsDiffer(ManutencaoTipo, 1, 2);
    assert AllPairsDiffer(ManutencaoTipo, 0, 1);
    assert PlainChars(ManutencaoTipo[0]) && PlainChars(ManutencaoTipo[1]) && PlainChars(ManutencaoTipo[2]);
  }

  lemma ManutencaoStatusPlainAndDistinct()
    ensures PlainAndDistinct(ManutencaoStatus)
  {
    assert AllPairsDiffer(ManutencaoStatus, 2, 3);
    assert AllPairsDiffer(ManutencaoStatus, 1, 2);
    assert AllPairsDiffer(ManutencaoStatus, 0, 1);
    assert PlainChars(ManutencaoStatus[0]) && PlainChars(ManutencaoStatus[1]) && PlainChars(ManutencaoStatus[2]);
    assert PlainChars(ManutencaoStatus[3]);
  }


  lemma DeclaredListsArePlainAndDistinct(k: nat)
    requires k < |DeclaredLists|
    ensures PlainAndDistinct(DeclaredLists[k])
  {
    match k
    case 0 => UserRolesPlainAndDistinct();
    case 1 => CategoriaRiscoPlainAndDistinct();
    case 2 => DanoPotencialPlainAndDistinct();
    case 3 => BarragemStatusPlainAndDistinct();
    case 4 => InstrumentoStatusPlainAndDistinct();
    case 5 => LeituraOrigemPlainAndDistinct();
    case 6 => ChecklistCreateTypesPlainAndDistinct();
    case 7 => ChecklistTypesPlainAndDistinct();
    case 8 => ChecklistStatusPlainAndDistinct();
    case 9 => RespostaOptionsPlainAndDistinct();
    case 10 => OcorrenciaSeveridadePlainAndDistinct();
    case 11 => OcorrenciaStatusPlainAndDistinct();
    case 12 => ManutencaoTipoPlainAndDistinct();
    case 13 => ManutencaoStatusPlainAndDistinct();
  }

  /** Every value of every declared list is accepted by its schema and comes
      back unchanged. */
  lemma DeclaredValuesAccepted(e: FlexEnum, k: nat, i: nat)
    requires k < |DeclaredLists| && e.Valid() && e.values == DeclaredLists[k]
    requires i < |e.values|
    ensures ParseFlexEnum(e, e.values[i]) == Ok(e.values[i])
  {
    DeclaredListsArePlainAndDistinct(k);
    PlainTokensNormalizeInjectively(e.values);
    ParseAcceptsDeclared(e, i);
  }

  /** Any input with the normal form of a declared value parses to that
      value. */
  lemma DeclaredValuesAcceptVariants(e: FlexEnum, k: nat, i: nat, input: string)
    requires k < |DeclaredLists| && e.Valid() && e.values == DeclaredLists[k]
    requires i < |e.values| && NormalizeEnumValue(input) == NormalizeEnumValue(e.values[i])
    ensures ParseFlexEnum(e, input) == Ok(e.values[i])
  {
    ParseSeesOnlyNormalForm(e, input, e.values[i]);
    DeclaredValuesAccepted(e, k, i);
  }

  // ---------------------------------------------------------------------------
  // Worked example: the incident severity " Crítica". Each step below is one
  // instance of the general normalisation lemmas above; together they show
  // that the schema maps this input to "critica".
  // ---------------------------------------------------------------------------

  lemma AcuteIDecomposes()
    ensures Nfd(['í']) == ['i', ACUTE]
  {
    assert ['í'][1..] == [];
    assert DecomposeChar('í') == Lower(['I', ACUTE]);
  }

  lemma LeadingSpaceDropped()
    ensures NormalizeEnumValue(" Crítica") == NormalizeEnumValue("Crítica")
  {
    assert " Crítica" == " " + "Crítica" + "";
    NormalizeIgnoresSurroundingWhitespace(" ", "Crítica", "");
  }

  lemma AccentDropped()
    ensures NormalizeEnumValue("Crítica") == NormalizeEnumValue("Critica")
  {
    assert "Crítica" == "Cr" + ['í'] + "tica";
    AcuteIDecomposes();
    NormalizeFoldsPrecomposed("Cr", 'í', 'i', ACUTE, "tica");
    assert "Cr" + ['i'] + "tica" == "Critica";
  }

  lemma CapitalDropped()
    ensures NormalizeEnumValue("Critica") == "critica"
  {
    PlainCharsArePlain("Critica");
    PlainTokenNormalizesToLower("Critica");
  }

  lemma AlreadyNormal()
    ensures NormalizeEnumValue("critica") == "critica"
  {
    PlainCharsArePlain("critica");
    PlainTokenNormalizesToLower("critica");
  }

  lemma CriticaIsDeclared()
    ensures |DeclaredLists| == 14 && DeclaredLists[10] == OcorrenciaSeveridade
    ensures |OcorrenciaSeveridade| == 4 && OcorrenciaSeveridade[3] == "critica"
  {
  }

  /** " Crítica" (leading space, capital, precomposed accent) has the normal
      form of the incident severity "critica", so that schema maps it to
      "critica". */
  lemma CriticaExample()
    ensures NormalizeEnumValue(" Crítica") == "critica"
  {
    LeadingSpaceDropped();
    AccentDropped();
    CapitalDropped();
    AlreadyNormal();
  }

  /** The incident-severity schema maps " Crítica" to "critica". */
  lemma CriticaParses(e: FlexEnum)
    requires e.Valid() && e.values == DeclaredLists[10]
    ensures ParseFlexEnum(e, " Crítica") == Ok("critica")
  {
    CriticaIsDeclared();
    CriticaExample();
    AlreadyNormal();
    DeclaredValuesAcceptVariants(e, 10, 3, " Crítica");
  }

  // ---------------------------------------------------------------------------
  // adminProcedure
  // ---------------------------------------------------------------------------

  datatype TrpcError = Forbidden(message: string)

  const FORBIDDEN_MESSAGE: string := "Acesso negado. Apenas administradores e gestores podem realizar esta ação."

  /** The middleware in front of every administrative procedure: it passes
      the request on (`next`) or raises FORBIDDEN. */
  function AdminGate(role: string): Result<(), TrpcError> {
    if role != "admin" && role != "gestor" then Err(Forbidden(FORBIDDEN_MESSAGE)) else Ok(())
  }

  /** Of the six declared roles, exactly "admin" and "gestor" get through;
      every refusal carries the same FORBIDDEN message. */
  lemma AdminGateAdmitsTwoRoles(role: string)
    ensures AdminGate(role).Ok? <==> role in {"admin", "gestor"}
    ensures AdminGate(role).Err? ==> AdminGate(role).error == Forbidden(FORBIDDEN_MESSAGE)
    ensures (set r | r in UserRoles && AdminGate(r).Ok?) == {"admin", "gestor"}
  {
    var admitted := set r | r in UserRoles && AdminGate(r).Ok?;
    assert "admin" in admitted && "gestor" in admitted;
    assert UserRoles[2] !in admitted && UserRoles[3] !in admitted;
    assert UserRoles[4] !in admitted && UserRoles[5] !in admitted;
  }

  // ---------------------------------------------------------------------------
  // documentos.upload: payload, extension and storage key
  // ---------------------------------------------------------------------------

  /** `fileData.split(',')[1] || fileData`: the piece between the first and
      the second comma, or the whole text when that piece is missing or empty. */
  function Base64Payload(fileData: string): string {
    var parts := Split(fileData, ',');
    if |parts| >= 2 && parts[1] != "" then parts[1] else fileData
  }

  /** `fileName.split('.').pop()`: the text after the last dot, or the whole
      name when it has none. */
  function Extension(fileName: string): string {
    Last(Split(fileName, '.'))
  }

  /** `documentos/${Date.now()}-${suffix}.${ext}`; the clock reading and the
      random suffix come in as parameters. */
  function StorageKey(fileName: string, timestamp: nat, suffix: string): string {
    "documentos/" + Decimal(timestamp) + "-" + suffix + "." + Extension(fileName)
  }

  lemma Base64PayloadCases(header: string, body: string)
    requires ',' !in header && ',' !in body
    ensures Base64Payload(header) == header
    ensures body != "" ==> Base64Payload(header + "," + body) == body
    ensures Base64Payload(header + ",") == header + ","
  {
    SplitAtFirstSeparator(header, ',', body);
    SplitAtFirstSeparator(header, ',', "");
    assert header + "," == header + [','] + "";
  }

  /** With a second comma, the payload is only the text between the first
      two commas; an empty segment there falls back to the whole string. */
  lemma Base64PayloadStopsAtSecondComma(header: string, mid: string, rest: string)
    requires ',' !in header && ',' !in mid
    ensures mid != "" ==> Base64Payload(header + "," + mid + "," + rest) == mid
    ensures mid == "" ==> Base64Payload(header + "," + mid + "," + rest) == header + "," + mid + "," + rest
  {
    var tail := mid + [','] + rest;
    var input := header + [','] + tail;
    assert header + "," + mid + "," + rest == input by {
      assert header + "," + mid + "," + rest == header + [','] + mid + [','] + rest;
    }
    SplitAtFirstSeparator(header, ',', tail);
    SplitAtFirstSeparator(mid, ',', rest);
    var parts := Split(input, ',');
    assert parts == [header] + ([mid] + Split(rest, ','));
    assert |parts| >= 2 && parts[1] == mid;
  }

  lemma ExtensionCases(fileName: string, base: string, ext: string)
    requires '.' !in ext
    ensures '.' !in Extension(fileName)
    ensures '.' !in fileName ==> Extension(fileName) == fileName
    ensures Extension(base + "." + ext) == ext
  {
    SplitLastAfterSeparator(base, '.', ext);
  }

  /** The key is filed under "documentos/" and carries the file's own
      extension: splitting the key at its dots gives back `ext`. */
  lemma StorageKeyKeepsExtension(fileName: string, timestamp: nat, suffix: string)
    ensures StartsWith(StorageKey(fileName, timestamp, suffix), "documentos/")
    ensures Extension(StorageKey(fileName, timestamp, suffix)) == Extension(fileName)
  {
    var ext := Extension(fileName);
    var stem := "documentos/" + Decimal(timestamp) + "-" + suffix;
    assert StorageKey(fileName, timestamp, suffix) == stem + ['.'] + ext;
    SplitLastAfterSeparator(stem, '.', ext);
  }
}
