/**
 * The decision logic of `createLeitura`, `createOcorrencia` and
 * `toggleUserStatus` in `server/db.ts`, as pure functions of the stored
 * records and the caller's input.
 *
 * `parseFloat` is a parameter: it maps a string to `Some(x)` for a finite
 * number and to `None` for NaN.
 */
module Alerting {
  import opened Wrappers
  import opened JsString

  type NumberParser = string -> Option<real>

  // ---------------------------------------------------------------------------
  // Records
  // ---------------------------------------------------------------------------

  /** The columns of an instrumento that `createLeitura` reads. */
  datatype Instrumento = Instrumento(
    barragemId: int,
    codigo: string,
    nivelAlerta: Option<string>,
    nivelCritico: Option<string>,
    unidadeMedida: Option<string>)

  /** What `createAlerta` receives. */
  datatype AlertaInput = AlertaInput(
    barragemId: int,
    tipo: string,
    severidade: string,
    titulo: string,
    mensagem: string,
    instrumentoId: Option<int>,
    leituraId: Option<int>,
    ocorrenciaId: Option<int>)

  // ---------------------------------------------------------------------------
  // Reading classification
  // ---------------------------------------------------------------------------

  const CRITICAL_LABEL: string := "Acima do nível crítico"
  const ALERT_LABEL: string := "Acima do nível de alerta"

  /** `level ? parseFloat(level) : null` followed by the truthiness test of the
      guard: a null or empty level, a NaN and a zero all disable the
      comparison. */
  function Threshold(level: Option<string>, parse: NumberParser): (t: Option<real>)
    ensures t.Some? <==> level.Some? && level.value != "" && parse(level.value).Some? && parse(level.value).value != 0.0
    ensures t.Some? ==> t.value == parse(level.value).value
  {
    if level.None? || level.value == "" then None
    else
      match parse(level.value)
      case None => None
      case Some(x) => if x == 0.0 then None else Some(x)
  }

  /** The kind `createLeitura` writes into `tipoInconsistencia`, if any: the
      critical level is tried first, then the alert level, both inclusive. */
  function Classification(valor: Option<real>, alerta: Option<real>, critico: Option<real>): Option<string> {
    if critico.Some? && valor.Some? && valor.value >= critico.value then Some(CRITICAL_LABEL)
    else if alerta.Some? && valor.Some? && valor.value >= alerta.value then Some(ALERT_LABEL)
    else None
  }

  /** The classification of a raw reading against an instrument. */
  function Classify(inst: Instrumento, valor: string, parse: NumberParser): Option<string> {
    Classification(parse(valor), Threshold(inst.nivelAlerta, parse), Threshold(inst.nivelCritico, parse))
  }

  /** 0 for no flag, 1 for the alert level, 2 for the critical level. */
  function Rank(kind: Option<string>): nat {
    if kind == Some(CRITICAL_LABEL) then 2 else if kind == Some(ALERT_LABEL) then 1 else 0
  }

  /** Both comparisons are inclusive, the critical level wins over the alert
      level, and nothing is flagged without a number to compare. */
  lemma ClassificationCases(valor: Option<real>, alerta: Option<real>, critico: Option<real>)
    ensures Classification(valor, alerta, critico) == Some(CRITICAL_LABEL) <==>
      valor.Some? && critico.Some? && valor.value >= critico.value
    ensures Classification(valor, alerta, critico) == Some(ALERT_LABEL) <==>
      valor.Some? && alerta.Some? && valor.value >= alerta.value &&
      !(critico.Some? && valor.value >= critico.value)
    ensures Classification(valor, alerta, critico).None? <==>
      valor.None? || ((critico.None? || valor.value < critico.value) && (alerta.None? || valor.value < alerta.value))
  {
  }

  /** A larger reading is never classified lower. */
  lemma ClassificationMonotone(v: real, w: real, alerta: Option<real>, critico: Option<real>)
    requires v <= w
    ensures Rank(Classification(Some(v), alerta, critico)) <= Rank(Classification(Some(w), alerta, critico))
  {
    assert CRITICAL_LABEL != ALERT_LABEL by {
      assert CRITICAL_LABEL[15] != ALERT_LABEL[15];
    }
  }

  /** A reading that does not parse, or a level that is missing, empty, zero
      or NaN, is never compared. */
  lemma UnparsedReadingUnflagged(inst: Instrumento, valor: string, parse: NumberParser)
    requires parse(valor).None? || (Threshold(inst.nivelAlerta, parse).None? && Threshold(inst.nivelCritico, parse).None?)
    ensures Classify(inst, valor, parse).None?
  {
  }

  // ---------------------------------------------------------------------------
  // The alert derived from a flagged reading
  // ---------------------------------------------------------------------------

  const READING_ALERT_TYPE: string := "Leitura com inconsistência"
  const READING_TITLE_PREFIX: string := "Leitura fora do padrão - "
  const OUT_OF_PATTERN: string := "fora do padrão"
  const CRIT_MARK: string := "crít"

  /** "critico" when the lower-cased kind mentions "crít", "alerta"
      otherwise (also when there is no kind). */
  function ReadingSeverity(kind: Option<string>): string {
    if kind.Some? && Includes(Lower(kind.value), CRIT_MARK) then "critico" else "alerta"
  }

  function ReadingTitle(inst: Instrumento): string {
    READING_TITLE_PREFIX + inst.codigo
  }

  function ReadingMessage(inst: Instrumento, kind: Option<string>, valor: string): string {
    var described := if kind.Some? then Lower(kind.value) else OUT_OF_PATTERN;
    var unit := if inst.unidadeMedida.Some? then inst.unidadeMedida.value else "";
    "O instrumento " + inst.codigo + " apresentou leitura " + described + ": " + valor + " " + unit
  }

  /** The alert `createLeitura` asks for after inserting reading
      `insertedId` (0 when no row came back): only for a flagged reading of
      a known instrument that was stored. */
  function ReadingAlert(inst: Option<Instrumento>, instrumentoId: int, inconsistencia: bool,
                        kind: Option<string>, valor: string, insertedId: int): (a: Option<AlertaInput>)
    ensures a.Some? <==> inconsistencia && inst.Some? && insertedId != 0
    ensures a.Some? ==>
      && a.value.barragemId == inst.value.barragemId
      && a.value.instrumentoId == Some(instrumentoId)
      && a.value.leituraId == Some(insertedId)
      && a.value.ocorrenciaId.None?
      && a.value.tipo == READING_ALERT_TYPE
      && a.value.titulo == ReadingTitle(inst.value)
      && a.value.severidade == ReadingSeverity(kind)
      && a.value.mensagem == ReadingMessage(inst.value, kind, valor)
  {
    if inconsistencia && inst.Some? && insertedId != 0 then
      Some(AlertaInput(inst.value.barragemId, READING_ALERT_TYPE, ReadingSeverity(kind),
        ReadingTitle(inst.value), ReadingMessage(inst.value, kind, valor),
        Some(instrumentoId), Some(insertedId), None))
    else None
  }

  // The two labels lower-cased, worked out character by character; only
  // LabelSeverities below uses them.

  lemma CriticalTailIsLower()
    ensures Lower("cima do nível crítico") == "cima do nível crítico"
  {
    var rest := "cima do nível crítico";
    assert NoUpperFrom(rest, 14);
    assert NoUpperFrom(rest, 7);
    LowerKeepsLowercase(rest);
  }

  lemma LowerCriticalLabel()
    ensures Lower(CRITICAL_LABEL) == "acima do nível " + CRIT_MARK + "ico"
  {
    var rest := "cima do nível crítico";
    assert CRITICAL_LABEL == "A" + rest;
    LowerAppend("A", rest);
    CriticalTailIsLower();
  }

  lemma AlertTailIsLower()
    ensures Lower("cima do nível de alerta") == "cima do nível de alerta"
  {
    var rest := "cima do nível de alerta";
    assert NoUpperFrom(rest, 16);
    assert NoUpperFrom(rest, 8);
    LowerKeepsLowercase(rest);
  }

  lemma LowerAlertLabel()
    ensures Lower(ALERT_LABEL) == "acima do nível de alerta"
  {
    var rest := "cima do nível de alerta";
    assert ALERT_LABEL == "A" + rest;
    LowerAppend("A", rest);
    AlertTailIsLower();
  }

  /** The two labels the classification writes map to the two severities. */
  lemma LabelSeverities()
    ensures ReadingSeverity(Some(CRITICAL_LABEL)) == "critico"
    ensures ReadingSeverity(Some(ALERT_LABEL)) == "alerta"
  {
    LowerCriticalLabel();
    IncludesInfix("acima do nível ", CRIT_MARK, "ico");
    LowerAlertLabel();
    var l := "acima do nível de alerta";
    assert !IncludesFrom(l, CRIT_MARK, 16);
    assert !IncludesFrom(l, CRIT_MARK, 8);
    assert !IncludesFrom(l, CRIT_MARK, 0);
  }

  /** The message quotes the lower-cased kind, so a reading flagged by
      `createLeitura` itself reads "... leitura acima do nível crítico: ..." or
      "... leitura acima do nível de alerta: ...". */
  lemma FlaggedReadingAlert(inst: Instrumento, instrumentoId: int, valor: string, parse: NumberParser, insertedId: int)
    requires Classify(inst, valor, parse).Some? && insertedId != 0
    ensures var a := ReadingAlert(Some(inst), instrumentoId, true, Classify(inst, valor, parse), valor, insertedId);
      && a.Some?
      && (a.value.severidade == "critico" <==> Classify(inst, valor, parse) == Some(CRITICAL_LABEL))
      && a.value.mensagem == "O instrumento " + inst.codigo + " apresentou leitura " +
        Lower(Classify(inst, valor, parse).value) + ": " + valor + " " + inst.unidadeMedida.GetOr("")
  {
    LabelSeverities();
  }

  // ---------------------------------------------------------------------------
  // The alert derived from a new incident
  // ---------------------------------------------------------------------------

  const INCIDENT_ALERT_TYPE: string := "Nova ocorrência"
  const INCIDENT_TITLE_PREFIX: string := "Nova ocorrência registrada - "
  const MESSAGE_LIMIT: nat := 200

  /** The alert `createOcorrencia` asks for after inserting incident
      `insertedId`: only for severity "alta" or "critica". */
  function IncidentAlert(barragemId: int, severidade: Option<string>, estrutura: string,
                         relato: string, insertedId: int): (a: Option<AlertaInput>)
    ensures a.Some? <==> insertedId != 0 && severidade.Some? && severidade.value in ["alta", "critica"]
    ensures a.Some? ==>
      && a.value.barragemId == barragemId
      && a.value.ocorrenciaId == Some(insertedId)
      && a.value.instrumentoId.None? && a.value.leituraId.None?
      && a.value.tipo == INCIDENT_ALERT_TYPE
      && a.value.titulo == INCIDENT_TITLE_PREFIX + estrutura
      && (a.value.severidade == "critico" <==> severidade == Some("critica"))
      && (a.value.severidade == "alerta" <==> severidade == Some("alta"))
      && |a.value.mensagem| == (if |relato| < MESSAGE_LIMIT then |relato| else MESSAGE_LIMIT)
      && StartsWith(relato, a.value.mensagem)
  {
    if insertedId != 0 && severidade.Some? && severidade.value in ["alta", "critica"] then
      Some(AlertaInput(barragemId, INCIDENT_ALERT_TYPE,
        if severidade.value == "critica" then "critico" else "alerta",
        INCIDENT_TITLE_PREFIX + estrutura, Prefix(relato, MESSAGE_LIMIT),
        None, None, Some(insertedId)))
    else None
  }

  // ---------------------------------------------------------------------------
  // toggleUserStatus
  // ---------------------------------------------------------------------------

  /** `user.ativo ? 0 : 1`. */
  function ToggledAtivo(ativo: bool): (bit: nat)
    ensures bit <= 1
    ensures bit == 1 <==> !ativo
  {
    if ativo then 0 else 1
  }
}
