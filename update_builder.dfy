/**
 * The partial-update builder of `server/db.ts`: `buildUpdateFragments`, the
 * hand-written `addField` copy of it in `updateBarragem`, and the guard and
 * `updatedAt` tail shared by every `update*` function.
 *
 * A payload is what the route handed over: a key the client left out is
 * `undefined`, a key sent as `null` clears the column. Each `update*`
 * function walks a fixed configuration in key order and produces one
 * `column = @column` assignment and one parameter binding per key that is not
 * `undefined`.
 */
module UpdateBuilder {
  import opened Wrappers
  import opened JsString

  // ---------------------------------------------------------------------------
  // Payloads, configurations and bindings
  // ---------------------------------------------------------------------------

  datatype Value = Text(text: string) | Number(number: int) | Bool(flag: bool)

  /** A payload entry as JavaScript sees it. */
  datatype Field = Undefined | Null | Present(value: Value)

  /** A key missing from the map reads as `undefined`. */
  type Payload = map<string, Field>

  function Lookup(data: Payload, key: string): Field {
    if key in data then data[key] else Undefined
  }

  /** The `mssql` parameter types used by the update configurations. */
  datatype SqlType = Int | Bit | DateTime2 | NVarChar(length: nat) | NVarCharMax

  /** The only transform the configurations use is `toDate`, whose parsing is
      left to the runtime: a binding records that it was applied. */
  datatype Transform = ToDate

  /** `SqlFieldConfig`: an optional column name (defaulting to the key), the
      parameter type and an optional transform. */
  datatype FieldConfig = FieldConfig(column: Option<string>, sqlType: SqlType, transform: Option<Transform>)

  /** `Object.entries(config)`: the keys in declaration order. */
  type Config = seq<(string, FieldConfig)>

  /** What `request.input` receives as the parameter value. */
  datatype BoundValue = SqlNull | Raw(value: Value) | Converted(transform: Transform, value: Value)

  /** One `request.input(name, type, value)` call. */
  datatype Binding = Binding(name: string, sqlType: SqlType, value: BoundValue)

  function ColumnOf(entry: (string, FieldConfig)): string {
    entry.1.column.GetOr(entry.0)
  }

  function Assignment(column: string): string {
    column + " = @" + column
  }

  predicate IsDefined(data: Payload, entry: (string, FieldConfig)) {
    Lookup(data, entry.0) != Undefined
  }

  /** The value a setter binds: `null` stays `null` without calling the
      transform; anything else goes through the transform when there is one. */
  function BoundFor(fc: FieldConfig, v: Field): BoundValue
    requires v != Undefined
  {
    if v.Null? then SqlNull
    else if fc.transform.Some? then Converted(fc.transform.value, v.value)
    else Raw(v.value)
  }

  function SetterOf(data: Payload, entry: (string, FieldConfig)): Binding
    requires IsDefined(data, entry)
  {
    Binding(ColumnOf(entry), entry.1.sqlType, BoundFor(entry.1, Lookup(data, entry.0)))
  }

  // ---------------------------------------------------------------------------
  // Specification of the builder
  // ---------------------------------------------------------------------------

  /** The positions of the configuration whose keys are defined in the
      payload, in increasing order. */
  function DefinedIndices(data: Payload, config: Config): seq<nat>
    decreases |config|
  {
    if config == [] then []
    else
      var n := |config| - 1;
      DefinedIndices(data, config[..n]) + (if IsDefined(data, config[n]) then [n] else [])
  }

  function Fragments(data: Payload, config: Config): seq<string>
    decreases |config|
  {
    if config == [] then []
    else
      var n := |config| - 1;
      Fragments(data, config[..n]) + (if IsDefined(data, config[n]) then [Assignment(ColumnOf(config[n]))] else [])
  }

  function Setters(data: Payload, config: Config): seq<Binding>
    decreases |config|
  {
    if config == [] then []
    else
      var n := |config| - 1;
      Setters(data, config[..n]) + (if IsDefined(data, config[n]) then [SetterOf(data, config[n])] else [])
  }

  /** `buildUpdateFragments`: one pass over the configuration, pushing an
      assignment and a setter for every key that is not `undefined`. */
  method BuildUpdateFragments(data: Payload, config: Config) returns (updates: seq<string>, setters: seq<Binding>)
    ensures updates == Fragments(data, config)
    ensures setters == Setters(data, config)
  {
    updates, setters := [], [];
    for i := 0 to |config|
      invariant updates == Fragments(data, config[..i])
      invariant setters == Setters(data, config[..i])
    {
      assert config[..i + 1][..i] == config[..i];
      var (key, fieldConfig) := config[i];
      var value := Lookup(data, key);
      if value != Undefined {
        var column := fieldConfig.column.GetOr(key);
        updates := updates + [column + " = @" + column];
        var transformed :=
          if value == Null then SqlNull
          else if fieldConfig.transform.Some? then Converted(fieldConfig.transform.value, value.value)
          else Raw(value.value);
        setters := setters + [Binding(column, fieldConfig.sqlType, transformed)];
      }
    }
    assert config[..|config|] == config;
  }

  // ---------------------------------------------------------------------------
  // What the builder promises
  // ---------------------------------------------------------------------------

  /** The defined positions are exactly the positions whose key is defined,
      listed once each in configuration order. */
  lemma {:induction false} DefinedIndicesExact(data: Payload, config: Config)
    ensures forall k :: 0 <= k < |DefinedIndices(data, config)| ==>
      DefinedIndices(data, config)[k] < |config| && IsDefined(data, config[DefinedIndices(data, config)[k]])
    ensures forall i :: 0 <= i < |config| && IsDefined(data, config[i]) ==> i in DefinedIndices(data, config)
    ensures forall k1, k2 :: 0 <= k1 < k2 < |DefinedIndices(data, config)| ==>
      DefinedIndices(data, config)[k1] < DefinedIndices(data, config)[k2]
    decreases |config|
  {
    if config != [] {
      var n := |config| - 1;
      var init := config[..n];
      DefinedIndicesExact(data, init);
      forall i | 0 <= i < n
        ensures config[i] == init[i]
      {
      }
    }
  }

  /** Fragment k and setter k both come from the k-th defined position. */
  lemma {:induction false} FragmentsFollowDefinedIndices(data: Payload, config: Config)
    ensures |Fragments(data, config)| == |DefinedIndices(data, config)|
    ensures |Setters(data, config)| == |DefinedIndices(data, config)|
    ensures forall k :: 0 <= k < |DefinedIndices(data, config)| ==>
      DefinedIndices(data, config)[k] < |config| &&
      Fragments(data, config)[k] == Assignment(ColumnOf(config[DefinedIndices(data, config)[k]])) &&
      IsDefined(data, config[DefinedIndices(data, config)[k]]) &&
      Setters(data, config)[k] == SetterOf(data, config[DefinedIndices(data, config)[k]])
    decreases |config|
  {
    DefinedIndicesExact(data, config);
    if config != [] {
      var n := |config| - 1;
      var init := config[..n];
      FragmentsFollowDefinedIndices(data, init);
      DefinedIndicesExact(data, init);
      forall i | 0 <= i < n
        ensures config[i] == init[i]
      {
      }
    }
  }

  /** Every fragment has exactly one setter, for the same column and at the
      same position. */
  lemma OneSetterPerFragment(data: Payload, config: Config)
    ensures |Fragments(data, config)| == |Setters(data, config)|
    ensures forall k :: 0 <= k < |Fragments(data, config)| ==>
      Fragments(data, config)[k] == Assignment(Setters(data, config)[k].name)
  {
    FragmentsFollowDefinedIndices(data, config);
  }

  /** An explicit `null` binds `null` and never reaches the transform; a value
      is transformed exactly when the key has a transform. */
  lemma SetterValues(data: Payload, config: Config, k: nat)
    requires k < |Setters(data, config)|
    ensures |DefinedIndices(data, config)| == |Setters(data, config)|
    ensures DefinedIndices(data, config)[k] < |config|
    ensures var entry := config[DefinedIndices(data, config)[k]];
      var v := Lookup(data, entry.0);
      var b := Setters(data, config)[k];
      && b.name == ColumnOf(entry) && b.sqlType == entry.1.sqlType
      && (v == Null <==> b.value == SqlNull)
      && (v.Present? && entry.1.transform.Some? ==> b.value == Converted(entry.1.transform.value, v.value))
      && (v.Present? && entry.1.transform.None? ==> b.value == Raw(v.value))
  {
    FragmentsFollowDefinedIndices(data, config);
  }

  lemma AssignmentInjective(a: string, b: string)
    requires Assignment(a) == Assignment(b)
    ensures a == b
  {
    assert |a| == |b|;
    assert Assignment(a)[..|a|] == a;
    assert Assignment(b)[..|b|] == b;
  }

  /** A column is assigned iff some configured key naming it is defined in
      the payload. */
  lemma IncludedIffDefined(data: Payload, config: Config, column: string)
    ensures Assignment(column) in Fragments(data, config) <==>
      exists i :: 0 <= i < |config| && IsDefined(data, config[i]) && ColumnOf(config[i]) == column
  {
    FragmentsFollowDefinedIndices(data, config);
    DefinedIndicesExact(data, config);
    var di := DefinedIndices(data, config);
    var fs := Fragments(data, config);
    if Assignment(column) in fs {
      var k :| 0 <= k < |fs| && fs[k] == Assignment(column);
      AssignmentInjective(column, ColumnOf(config[di[k]]));
    }
    if exists i :: 0 <= i < |config| && IsDefined(data, config[i]) && ColumnOf(config[i]) == column {
      var i :| 0 <= i < |config| && IsDefined(data, config[i]) && ColumnOf(config[i]) == column;
      var k :| 0 <= k < |di| && di[k] == i;
      assert fs[k] == Assignment(column);
    }
  }

  /** No fragment at all iff no configured key is defined. */
  lemma EmptyIffNothingDefined(data: Payload, config: Config)
    ensures Fragments(data, config) == [] <==> forall i :: 0 <= i < |config| ==> !IsDefined(data, config[i])
  {
    FragmentsFollowDefinedIndices(data, config);
    DefinedIndicesExact(data, config);
  }

  /** Keys the configuration does not list never reach the statement. */
  lemma {:induction false} IgnoresUnconfiguredKeys(data: Payload, config: Config, key: string, v: Field)
    requires forall i :: 0 <= i < |config| ==> config[i].0 != key
    ensures Fragments(data[key := v], config) == Fragments(data, config)
    ensures Setters(data[key := v], config) == Setters(data, config)
    decreases |config|
  {
    if config != [] {
      var n := |config| - 1;
      assert Lookup(data[key := v], config[n].0) == Lookup(data, config[n].0);
      IgnoresUnconfiguredKeys(data, config[..n], key, v);
    }
  }

  // ---------------------------------------------------------------------------
  // updateBarragem's addField copy
  // ---------------------------------------------------------------------------

  /** The columns `updateBarragem` passes to `addField`, in call order. */
  const BarragemColumns: seq<(string, SqlType)> := [
    ("codigo", NVarChar(50)), ("nome", NVarChar(255)), ("rio", NVarChar(255)),
    ("bacia", NVarChar(255)), ("municipio", NVarChar(255)), ("estado", NVarChar(2)),
    ("latitude", NVarChar(50)), ("longitude", NVarChar(50)), ("tipo", NVarChar(100)),
    ("finalidade", NVarChar(255)), ("altura", NVarChar(50)), ("comprimento", NVarChar(50)),
    ("volumeReservatorio", NVarChar(50)), ("areaReservatorio", NVarChar(50)),
    ("nivelMaximoNormal", NVarChar(50)), ("nivelMaximoMaximorum", NVarChar(50)),
    ("nivelMinimo", NVarChar(50)), ("proprietario", NVarChar(255)), ("operador", NVarChar(255)),
    ("anoInicioConstrucao", Int), ("anoInicioOperacao", Int), ("categoriaRisco", NVarChar(8)),
    ("danoPotencialAssociado", NVarChar(16)), ("status", NVarChar(32)), ("observacoes", NVarCharMax)
  ]

  /** A column list read as a configuration with no renames and no
      transforms. */
  function PlainConfig(columns: seq<(string, SqlType)>): (config: Config)
    ensures |config| == |columns|
    ensures forall i :: 0 <= i < |columns| ==>
      config[i] == (columns[i].0, FieldConfig(None, columns[i].1, None))
  {
    if columns == [] then []
    else [(columns[0].0, FieldConfig(None, columns[0].1, None))] + PlainConfig(columns[1..])
  }

  /** `value ?? null`. */
  function OrNull(v: Field): BoundValue {
    if v.Present? then Raw(v.value) else SqlNull
  }

  /** `addField(column, value, setter)`: push the assignment and the setter
      (binding `value ?? null`) unless the value is `undefined`. */
  method AddField(updates: seq<string>, setters: seq<Binding>, column: string, sqlType: SqlType, value: Field)
    returns (updates': seq<string>, setters': seq<Binding>)
    ensures value == Undefined ==> updates' == updates && setters' == setters
    ensures value != Undefined ==>
      updates' == updates + [Assignment(column)] && setters' == setters + [Binding(column, sqlType, OrNull(value))]
  {
    updates', setters' := updates, setters;
    if value != Undefined {
      updates' := updates' + [column + " = @" + column];
      setters' := setters' + [Binding(column, sqlType, OrNull(value))];
    }
  }

  /** A run of `addField` calls, one per column, produces exactly what the
      generic builder produces for the same columns. */
  method AddFields(data: Payload, columns: seq<(string, SqlType)>) returns (updates: seq<string>, setters: seq<Binding>)
    ensures updates == Fragments(data, PlainConfig(columns))
    ensures setters == Setters(data, PlainConfig(columns))
  {
    var config := PlainConfig(columns);
    updates, setters := [], [];
    for i := 0 to |columns|
      invariant updates == Fragments(data, config[..i])
      invariant setters == Setters(data, config[..i])
    {
      assert config[..i + 1][..i] == config[..i];
      var (column, sqlType) := columns[i];
      updates, setters := AddField(updates, setters, column, sqlType, Lookup(data, column));
    }
    assert config[..|config|] == config;
  }

  /** The fragments `updateBarragem` collects with its `addField` calls. */
  method UpdateBarragemFragments(data: Payload) returns (updates: seq<string>, setters: seq<Binding>)
    ensures updates == Fragments(data, ConfigOf(Barragens))
    ensures setters == Setters(data, ConfigOf(Barragens))
  {
    updates, setters := AddFields(data, BarragemColumns);
  }

  // ---------------------------------------------------------------------------
  // The update* functions
  // ---------------------------------------------------------------------------

  datatype Entity = Barragens | Estruturas | Instrumentos | Checklists | Ocorrencias | Hidrometria | Documentos | Manutencoes

  function TableName(e: Entity): string {
    match e
    case Barragens => "barragens"
    case Estruturas => "estruturas"
    case Instrumentos => "instrumentos"
    case Checklists => "checklists"
    case Ocorrencias => "ocorrencias"
    case Hidrometria => "hidrometria"
    case Documentos => "documentos"
    case Manutencoes => "manutencoes"
  }

  function Plain(key: string, t: SqlType): (string, FieldConfig) {
    (key, FieldConfig(None, t, None))
  }

  function Dated(key: string): (string, FieldConfig) {
    (key, FieldConfig(None, DateTime2, Some(ToDate)))
  }

  /** The configuration object each `update*` function passes. */
  function ConfigOf(e: Entity): Config {
    match e
    case Barragens => PlainConfig(BarragemColumns)
    case Estruturas => [
      Plain("barragemId", Int), Plain("codigo", NVarChar(50)), Plain("nome", NVarChar(255)),
      Plain("tipo", NVarChar(100)), Plain("descricao", NVarCharMax), Plain("localizacao", NVarChar(255)),
      Plain("coordenadas", NVarChar(100)), Plain("ativo", Bit)]
    case Instrumentos => [
      Plain("barragemId", Int), Plain("estruturaId", Int), Plain("codigo", NVarChar(50)),
      Plain("tipo", NVarChar(100)), Plain("localizacao", NVarChar(255)), Plain("estaca", NVarChar(50)),
      Plain("cota", NVarChar(50)), Plain("coordenadas", NVarChar(100)), Dated("dataInstalacao"),
      Plain("fabricante", NVarChar(255)), Plain("modelo", NVarChar(255)), Plain("numeroSerie", NVarChar(100)),
      Plain("nivelNormal", NVarChar(50)), Plain("nivelAlerta", NVarChar(50)), Plain("nivelCritico", NVarChar(50)),
      Plain("formula", NVarCharMax), Plain("unidadeMedida", NVarChar(50)), Plain("limiteInferior", NVarChar(50)),
      Plain("limiteSuperior", NVarChar(50)), Plain("frequenciaLeitura", NVarChar(100)),
      Plain("responsavel", NVarChar(255)), Plain("qrCode", NVarChar(255)), Plain("codigoBarras", NVarChar(255)),
      Plain("status", NVarChar(32)), Plain("observacoes", NVarCharMax), Plain("ativo", Bit)]
    case Checklists => [
      Plain("tipo", NVarChar(32)), Plain("inspetor", NVarChar(255)), Plain("climaCondicoes", NVarChar(255)),
      Plain("status", NVarChar(32)), Plain("consultorId", NVarChar(64)), Dated("dataAvaliacao"),
      Plain("comentariosConsultor", NVarCharMax), Plain("observacoesGerais", NVarCharMax),
      Plain("latitude", NVarChar(50)), Plain("longitude", NVarChar(50))]
    case Ocorrencias => [
      Plain("barragemId", Int), Plain("estruturaId", Int), Plain("estrutura", NVarChar(255)),
      Plain("relato", NVarCharMax), Plain("fotos", NVarCharMax), Plain("titulo", NVarChar(255)),
      Plain("descricao", NVarCharMax), Dated("dataOcorrencia"), Plain("localOcorrencia", NVarChar(255)),
      Plain("acaoImediata", NVarCharMax), Plain("responsavel", NVarChar(255)), Plain("categoria", NVarChar(100)),
      Plain("severidade", NVarChar(16)), Plain("tipo", NVarChar(100)), Plain("status", NVarChar(32)),
      Plain("usuarioAvaliacaoId", NVarChar(64)), Dated("dataAvaliacao"), Plain("comentariosAvaliacao", NVarCharMax),
      Dated("dataConclusao"), Plain("comentariosConclusao", NVarCharMax),
      Plain("latitude", NVarChar(50)), Plain("longitude", NVarChar(50))]
    case Hidrometria => [
      Plain("barragemId", Int), Plain("usuarioId", NVarChar(64)), Dated("dataLeitura"), Dated("dataHora"),
      Plain("nivelMontante", NVarChar(50)), Plain("nivelJusante", NVarChar(50)),
      Plain("nivelReservatorio", NVarChar(50)), Plain("vazao", NVarChar(50)), Plain("vazaoAfluente", NVarChar(50)),
      Plain("vazaoDefluente", NVarChar(50)), Plain("vazaoVertedouro", NVarChar(50)),
      Plain("volumeReservatorio", NVarChar(50)), Plain("volumeArmazenado", NVarChar(50)),
      Plain("observacoes", NVarCharMax)]
    case Documentos => [
      Plain("barragemId", Int), Plain("usuarioId", NVarChar(64)), Plain("tipo", NVarChar(100)),
      Plain("categoria", NVarChar(100)), Plain("titulo", NVarChar(255)), Plain("descricao", NVarCharMax),
      Plain("arquivoUrl", NVarChar(500)), Plain("arquivoNome", NVarChar(255)), Plain("arquivoTamanho", Int),
      Plain("arquivoTipo", NVarChar(100)), Plain("versao", NVarChar(50)), Plain("documentoPaiId", Int),
      Dated("dataValidade"), Plain("tags", NVarChar(500))]
    case Manutencoes => [
      Plain("barragemId", Int), Plain("estruturaId", Int), Plain("ocorrenciaId", Int),
      Plain("tipo", NVarChar(32)), Plain("titulo", NVarChar(255)), Plain("descricao", NVarCharMax),
      Dated("dataProgramada"), Plain("responsavel", NVarChar(255)), Dated("dataInicio"),
      Dated("dataConclusao"), Plain("status", NVarChar(32)), Plain("custoEstimado", NVarChar(50)),
      Plain("custoReal", NVarChar(50)), Plain("observacoes", NVarCharMax)]
  }

  /** Estruturas and hidrometria have no `updatedAt` stamp. */
  predicate StampsUpdatedAt(e: Entity) {
    e != Estruturas && e != Hidrometria
  }

  const UPDATED_AT: string := "updatedAt = SYSDATETIME()"

  /** `UPDATE dbo.<table> SET <assignments> WHERE id = @id`, with the `id`
      parameter bound before the setters run. */
  datatype Statement = Update(table: string, assignments: seq<string>, bindings: seq<Binding>) {
    function Sql(): string {
      "UPDATE dbo." + table + " SET " + Join(assignments, ", ") + " WHERE id = @id"
    }
  }

  function IdBinding(id: int): Binding {
    Binding("id", Int, Raw(Number(id)))
  }

  /** The tail every `update*` function shares: no statement when no
      fragment came out, otherwise one UPDATE (stamped or not). */
  function StatementFor(table: string, stamped: bool, id: int, data: Payload, config: Config): Option<Statement> {
    var updates := Fragments(data, config);
    if |updates| == 0 then None
    else
      var assignments := if stamped then updates + [UPDATED_AT] else updates;
      Some(Update(table, assignments, [IdBinding(id)] + Setters(data, config)))
  }

  /** What `update<Entity>(id, data)` sends, if anything. */
  function UpdateStatement(e: Entity, id: int, data: Payload): Option<Statement> {
    StatementFor(TableName(e), StampsUpdatedAt(e), id, data, ConfigOf(e))
  }

  /** No statement when nothing is defined; otherwise one UPDATE on the
      table whose assignments are the fragments (then the stamp, when the
      table is stamped), with `id` bound first and then one binding per
      fragment. */
  lemma StatementShape(table: string, stamped: bool, id: int, data: Payload, config: Config)
    ensures StatementFor(table, stamped, id, data, config).None? <==>
      forall i :: 0 <= i < |config| ==> !IsDefined(data, config[i])
    ensures StatementFor(table, stamped, id, data, config).Some? ==>
      var s := StatementFor(table, stamped, id, data, config).value;
      var fs := Fragments(data, config);
      && s.table == table
      && s.assignments[..|fs|] == fs
      && |s.assignments| == |fs| + (if stamped then 1 else 0)
      && (stamped ==> s.assignments[|s.assignments| - 1] == UPDATED_AT)
      && |s.bindings| == 1 + |fs|
      && s.bindings[0] == IdBinding(id)
      && s.bindings[1..] == Setters(data, config)
  {
    EmptyIffNothingDefined(data, config);
    OneSetterPerFragment(data, config);
  }

  /** The stamp is not an `x = @x` assignment, so a statement carries it
      exactly when the table is stamped. */
  lemma StampOnlyWhenStamped(table: string, stamped: bool, id: int, data: Payload, config: Config)
    requires StatementFor(table, stamped, id, data, config).Some?
    ensures UPDATED_AT in StatementFor(table, stamped, id, data, config).value.assignments <==> stamped
  {
    var fs := Fragments(data, config);
    FragmentsFollowDefinedIndices(data, config);
    forall k | 0 <= k < |fs|
      ensures fs[k] != UPDATED_AT
    {
      var c := ColumnOf(config[DefinedIndices(data, config)[k]]);
      assert fs[k][|c| + 3] == '@';
      assert '@' !in UPDATED_AT;
    }
  }

  /** Of the eight `update*` functions, only `updateEstrutura` and
      `updateHidrometria` send their UPDATE without `updatedAt`, and each
      sends one only when some configured field is defined. */
  lemma EntityStatements(e: Entity, id: int, data: Payload)
    ensures UpdateStatement(e, id, data).None? <==>
      forall i :: 0 <= i < |ConfigOf(e)| ==> !IsDefined(data, ConfigOf(e)[i])
    ensures UpdateStatement(e, id, data).Some? ==>
      && UpdateStatement(e, id, data).value.table == TableName(e)
      && (UPDATED_AT in UpdateStatement(e, id, data).value.assignments <==> e != Estruturas && e != Hidrometria)
  {
    var config := ConfigOf(e);
    StatementShape(TableName(e), StampsUpdatedAt(e), id, data, config);
    if UpdateStatement(e, id, data).Some? {
      StampOnlyWhenStamped(TableName(e), StampsUpdatedAt(e), id, data, config);
    }
  }

  // ---------------------------------------------------------------------------
  // What the statement does to the stored row
  // ---------------------------------------------------------------------------

  /** A stored column: a bound parameter, or the server clock reading that
      `SYSDATETIME()` takes (a parameter here). */
  datatype Cell = Param(value: BoundValue) | Clock(now: int)

  type Row = map<string, Cell>

  /** `SET c1 = @c1, ...`: each setter writes its parameter into its column. */
  function ApplyBindings(row: Row, bindings: seq<Binding>): Row
    decreases |bindings|
  {
    if bindings == [] then row
    else ApplyBindings(row[bindings[0].name := Param(bindings[0].value)], bindings[1..])
  }

  /** The row after the statement `StatementFor` builds, when the clock
      reads `now`. */
  function RowAfter(stamped: bool, data: Payload, config: Config, row: Row, now: int): Row {
    if |Fragments(data, config)| == 0 then row
    else
      var written := ApplyBindings(row, Setters(data, config));
      if stamped then written["updatedAt" := Clock(now)] else written
  }

  lemma {:induction false} ApplyBindingsElsewhere(row: Row, bindings: seq<Binding>, column: string)
    requires forall k :: 0 <= k < |bindings| ==> bindings[k].name != column
    ensures (column in ApplyBindings(row, bindings)) == (column in row)
    ensures column in row ==> ApplyBindings(row, bindings)[column] == row[column]
    decreases |bindings|
  {
    if bindings != [] {
      ApplyBindingsElsewhere(row[bindings[0].name := Param(bindings[0].value)], bindings[1..], column);
    }
  }

  lemma {:induction false} ApplyBindingsTwice(row: Row, bindings: seq<Binding>)
    ensures ApplyBindings(ApplyBindings(row, bindings), bindings) == ApplyBindings(row, bindings)
    decreases |bindings|
  {
    if bindings != [] {
      var b := bindings[0];
      ApplyBindingsTwice(row[b.name := Param(b.value)], bindings[1..]);
      ApplyBindingsCommutesFront(row, bindings);
    }
  }

  /** Re-writing a column that the later setters overwrite or keep makes no
      difference: applying the setters after any earlier write of the first
      setter's value is the same as applying them directly. */
  lemma {:induction false} ApplyBindingsCommutesFront(row: Row, bindings: seq<Binding>)
    requires bindings != []
    ensures ApplyBindings(ApplyBindings(row, bindings)[bindings[0].name := Param(bindings[0].value)], bindings[1..])
      == ApplyBindings(ApplyBindings(row, bindings), bindings[1..])
  {
    var b := bindings[0];
    var once := ApplyBindings(row, bindings);
    LastWriteOf(row, bindings, b.name);
    if once[b.name] == Param(b.value) {
      assert once[b.name := Param(b.value)] == once;
    } else {
      var k :| 1 <= k < |bindings| && bindings[k].name == b.name;
      ColumnWrittenLater(once, once[b.name := Param(b.value)], bindings[1..], b.name, k - 1);
    }
  }

  /** After the setters run, a column either holds the first setter's value
      or is written again by a later setter. */
  lemma LastWriteOf(row: Row, bindings: seq<Binding>, column: string)
    requires bindings != [] && bindings[0].name == column
    ensures column in ApplyBindings(row, bindings)
    ensures ApplyBindings(row, bindings)[column] == Param(bindings[0].value) ||
      exists k :: 1 <= k < |bindings| && bindings[k].name == column
  {
    var rest := bindings[1..];
    var start := row[column := Param(bindings[0].value)];
    if forall k :: 0 <= k < |rest| ==> rest[k].name != column {
      ApplyBindingsElsewhere(start, rest, column);
    } else {
      var k :| 0 <= k < |rest| && rest[k].name == column;
      ApplyBindingsWrites(start, rest, k);
      assert bindings[k + 1].name == column;
    }
  }

  lemma {:induction false} ApplyBindingsWrites(row: Row, bindings: seq<Binding>, k: nat)
    requires k < |bindings|
    ensures bindings[k].name in ApplyBindings(row, bindings)
    decreases |bindings|
  {
    var b := bindings[0];
    var next := row[b.name := Param(b.value)];
    if k == 0 {
      if forall j :: 0 <= j < |bindings[1..]| ==> bindings[1..][j].name != b.name {
        ApplyBindingsElsewhere(next, bindings[1..], b.name);
      } else {
        var j :| 0 <= j < |bindings[1..]| && bindings[1..][j].name == b.name;
        ApplyBindingsWrites(next, bindings[1..], j);
      }
    } else {
      ApplyBindingsWrites(next, bindings[1..], k - 1);
    }
  }

  /** Two rows that differ only in a column some setter writes agree once the
      setters have run. */
  lemma {:induction false} ColumnWrittenLater(r1: Row, r2: Row, bindings: seq<Binding>, column: string, k: nat)
    requires k < |bindings| && bindings[k].name == column
    requires forall c :: c != column ==> (c in r1 <==> c in r2) && (c in r1 ==> r1[c] == r2[c])
    ensures ApplyBindings(r1, bindings) == ApplyBindings(r2, bindings)
    decreases |bindings|
  {
    var b := bindings[0];
    var n1, n2 := r1[b.name := Param(b.value)], r2[b.name := Param(b.value)];
    if b.name == column {
      assert n1 == n2;
    } else {
      ColumnWrittenLater(n1, n2, bindings[1..], column, k - 1);
    }
  }

  /** Columns the payload does not touch keep their stored value; only the
      assigned columns and (for stamped tables) `updatedAt` can change. */
  lemma RowAfterKeepsOtherColumns(stamped: bool, data: Payload, config: Config, row: Row, now: int, column: string)
    requires column != "updatedAt"
    requires forall i :: 0 <= i < |config| && IsDefined(data, config[i]) ==> ColumnOf(config[i]) != column
    ensures (column in RowAfter(stamped, data, config, row, now)) == (column in row)
    ensures column in row ==> RowAfter(stamped, data, config, row, now)[column] == row[column]
  {
    FragmentsFollowDefinedIndices(data, config);
    ApplyBindingsElsewhere(row, Setters(data, config), column);
  }

  /** Sending the same update twice leaves the row as sending it once (with
      the same clock reading). */
  lemma RowAfterIdempotent(stamped: bool, data: Payload, config: Config, row: Row, now: int)
    ensures RowAfter(stamped, data, config, RowAfter(stamped, data, config, row, now), now)
      == RowAfter(stamped, data, config, row, now)
  {
    var setters := Setters(data, config);
    if |Fragments(data, config)| != 0 {
      ApplyBindingsTwice(row, setters);
      if stamped {
        var once := ApplyBindings(row, setters);
        StampThenWrite(once, setters, now);
      }
    }
  }

  /** Stamping before the setters run changes nothing once the stamp is
      applied again afterwards. */
  lemma {:induction false} StampThenWrite(row: Row, bindings: seq<Binding>, now: int)
    ensures ApplyBindings(row["updatedAt" := Clock(now)], bindings)["updatedAt" := Clock(now)]
      == ApplyBindings(row, bindings)["updatedAt" := Clock(now)]
    decreases |bindings|
  {
    if bindings != [] {
      var b := bindings[0];
      var r1 := row["updatedAt" := Clock(now)][b.name := Param(b.value)];
      var r2 := row[b.name := Param(b.value)];
      if b.name == "updatedAt" {
        assert r1 == r2;
      } else {
        assert r1 == r2["updatedAt" := Clock(now)];
        StampThenWrite(r2, bindings[1..], now);
      }
    }
  }
}
