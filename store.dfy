/**
 * The stateful side of `server/db.ts`: the tables the core reads and writes,
 * as maps from id to record, and the operations that change them.
 *
 * The database hands out ids (`OUTPUT INSERTED.id`): an insert receives the id
 * it will get as a parameter, and 0 stands for an empty result, meaning that
 * no row came back. The clock behind `SYSDATETIME()` is a parameter too. The
 * reading insert and the alert insert are two separate steps; nothing here
 * makes them atomic.
 */
module Store {
  import opened Wrappers
  import opened Alerting
  import opened UpdateBuilder

  datatype User = User(name: Option<string>, role: string, ativo: bool)

  /** A stored reading: `inconsistencia` is `COALESCE(@inconsistencia, 0)`. */
  datatype Leitura = Leitura(instrumentoId: int, valor: string, inconsistencia: bool, tipoInconsistencia: Option<string>)

  /** A stored incident: `status` is `COALESCE(@status, 'pendente')`. */
  datatype Ocorrencia = Ocorrencia(barragemId: int, estrutura: string, relato: string, severidade: Option<string>, status: string)

  /** A stored alert: `lido` starts as `COALESCE(@lido, 0)`, `dataLeitura`
      is set when it is marked as read. */
  datatype Alerta = Alerta(input: AlertaInput, lido: bool, dataLeitura: Option<int>)

  /** The incident fields `createOcorrencia` uses in its decision. */
  datatype OcorrenciaInput = OcorrenciaInput(barragemId: int, estrutura: string, relato: string,
                                             severidade: Option<string>, status: Option<string>)

  const DEFAULT_STATUS: string := "pendente"

  /** The statement list an optional statement contributes. */
  function OptionToSeq<T>(o: Option<T>): (r: seq<T>)
    ensures |r| <= 1 && (r == [] <==> o.None?)
    ensures o.Some? ==> r == [o.value]
  {
    if o.Some? then [o.value] else []
  }

  /** The users table after `toggleUserStatus(userId)`. */
  function ToggledUsers(users: map<string, User>, userId: string): (r: map<string, User>)
    ensures r.Keys == users.Keys
    ensures forall k :: k in users && k != userId ==> r[k] == users[k]
    ensures userId in users ==> r[userId].ativo == !users[userId].ativo
    ensures userId in users ==> r[userId].name == users[userId].name && r[userId].role == users[userId].role
  {
    if userId in users then users[userId := users[userId].(ativo := ToggledAtivo(users[userId].ativo) == 1)]
    else users
  }

  /** Toggling twice restores the table. */
  lemma ToggleTwice(users: map<string, User>, userId: string)
    ensures ToggledUsers(ToggledUsers(users, userId), userId) == users
  {
    var once := ToggledUsers(users, userId);
    var twice := ToggledUsers(once, userId);
    assert forall k :: k in users ==> twice[k] == users[k];
  }

  /** The alerts table after `marcarAlertaComoLido(id)` at time `now`. */
  function MarkedRead(alertas: map<int, Alerta>, id: int, now: int): (r: map<int, Alerta>)
    ensures r.Keys == alertas.Keys
    ensures forall k :: k in alertas && k != id ==> r[k] == alertas[k]
    ensures id in alertas ==> r[id].lido && r[id].dataLeitura == Some(now) && r[id].input == alertas[id].input
  {
    if id in alertas then alertas[id := alertas[id].(lido := true, dataLeitura := Some(now))] else alertas
  }

  /** Marking again only moves the read time. */
  lemma MarkReadAgain(alertas: map<int, Alerta>, id: int, t1: int, t2: int)
    ensures MarkedRead(MarkedRead(alertas, id, t1), id, t2) == MarkedRead(alertas, id, t2)
  {
    var a := MarkedRead(MarkedRead(alertas, id, t1), id, t2);
    var b := MarkedRead(alertas, id, t2);
    assert forall k :: k in alertas ==> a[k] == b[k];
  }

  /** The `InsertLeitura` object the route passes to `createLeitura`, which
      that function updates in place before inserting it. */
  class LeituraInput {
    var instrumentoId: int
    var valor: string
    var inconsistencia: bool
    var tipoInconsistencia: Option<string>

    constructor (instrumentoId: int, valor: string, inconsistencia: bool, tipoInconsistencia: Option<string>)
      ensures this.instrumentoId == instrumentoId && this.valor == valor
      ensures this.inconsistencia == inconsistencia && this.tipoInconsistencia == tipoInconsistencia
    {
      this.instrumentoId := instrumentoId;
      this.valor := valor;
      this.inconsistencia := inconsistencia;
      this.tipoInconsistencia := tipoInconsistencia;
    }
  }

  class Database {
    var users: map<string, User>
    var instrumentos: map<int, Instrumento>
    var leituras: map<int, Leitura>
    var ocorrencias: map<int, Ocorrencia>
    var alertas: map<int, Alerta>
    /** The UPDATE statements sent by the `update*` functions, in order. */
    var issued: seq<Statement>

    constructor ()
      ensures users == map[] && instrumentos == map[] && leituras == map[]
      ensures ocorrencias == map[] && alertas == map[] && issued == []
    {
      users, instrumentos, leituras := map[], map[], map[];
      ocorrencias, alertas, issued := map[], map[], [];
    }

    function InstrumentoById(id: int): Option<Instrumento>
      reads this
    {
      if id in instrumentos then Some(instrumentos[id]) else None
    }

    /** `createAlerta`: stores the alert unread under the id the database
        returns, and returns that id. */
    method CreateAlerta(a: AlertaInput, newId: int) returns (insertedId: int)
      modifies this
      ensures insertedId == newId
      ensures alertas == if newId != 0 then old(alertas)[newId := Alerta(a, false, None)] else old(alertas)
      ensures users == old(users) && instrumentos == old(instrumentos) && leituras == old(leituras)
      ensures ocorrencias == old(ocorrencias) && issued == old(issued)
    {
      if newId != 0 {
        alertas := alertas[newId := Alerta(a, false, None)];
      }
      insertedId := newId;
    }

    /** `createLeitura`: classify the reading against its instrument (flagging
        the input object in place), insert it, then derive at most one alert. */
    method CreateLeitura(data: LeituraInput, parse: NumberParser, newId: int, alertId: int) returns (insertedId: int)
      modifies this, data
      ensures insertedId == newId
      ensures data.instrumentoId == old(data.instrumentoId) && data.valor == old(data.valor)
      ensures var inst := old(InstrumentoById(data.instrumentoId));
        var flag := if inst.Some? then Classify(inst.value, data.valor, parse) else None;
        && data.inconsistencia == (flag.Some? || old(data.inconsistencia))
        && data.tipoInconsistencia == (if flag.Some? then flag else old(data.tipoInconsistencia))
        && leituras == (if newId != 0
                        then old(leituras)[newId := Leitura(data.instrumentoId, data.valor, data.inconsistencia, data.tipoInconsistencia)]
                        else old(leituras))
        && var alert := ReadingAlert(inst, data.instrumentoId, data.inconsistencia, data.tipoInconsistencia, data.valor, newId);
           alertas == (if alert.Some? && alertId != 0 then old(alertas)[alertId := Alerta(alert.value, false, None)] else old(alertas))
      ensures users == old(users) && instrumentos == old(instrumentos)
      ensures ocorrencias == old(ocorrencias) && issued == old(issued)
    {
      var instrumento := InstrumentoById(data.instrumentoId);
      if instrumento.Some? {
        var valor := parse(data.valor);
        var nivelAlerta := Threshold(instrumento.value.nivelAlerta, parse);
        var nivelCritico := Threshold(instrumento.value.nivelCritico, parse);
        if nivelCritico.Some? && valor.Some? && valor.value >= nivelCritico.value {
          data.inconsistencia := true;
          data.tipoInconsistencia := Some(CRITICAL_LABEL);
        } else if nivelAlerta.Some? && valor.Some? && valor.value >= nivelAlerta.value {
          data.inconsistencia := true;
          data.tipoInconsistencia := Some(ALERT_LABEL);
        }
      }

      if newId != 0 {
        leituras := leituras[newId := Leitura(data.instrumentoId, data.valor, data.inconsistencia, data.tipoInconsistencia)];
      }
      insertedId := newId;

      var alert := ReadingAlert(instrumento, data.instrumentoId, data.inconsistencia, data.tipoInconsistencia, data.valor, insertedId);
      if alert.Some? {
        var _ := CreateAlerta(alert.value, alertId);
      }
    }

    /** `createOcorrencia`: insert the incident, then derive at most one
        alert from its severity. */
    method CreateOcorrencia(data: OcorrenciaInput, newId: int, alertId: int) returns (insertedId: int)
      modifies this
      ensures insertedId == newId
      ensures ocorrencias == if newId != 0
        then old(ocorrencias)[newId := Ocorrencia(data.barragemId, data.estrutura, data.relato, data.severidade, data.status.GetOr(DEFAULT_STATUS))]
        else old(ocorrencias)
      ensures var alert := IncidentAlert(data.barragemId, data.severidade, data.estrutura, data.relato, newId);
        alertas == if alert.Some? && alertId != 0 then old(alertas)[alertId := Alerta(alert.value, false, None)] else old(alertas)
      ensures users == old(users) && instrumentos == old(instrumentos)
      ensures leituras == old(leituras) && issued == old(issued)
    {
      if newId != 0 {
        ocorrencias := ocorrencias[newId := Ocorrencia(data.barragemId, data.estrutura, data.relato, data.severidade, data.status.GetOr(DEFAULT_STATUS))];
      }
      insertedId := newId;
      var alert := IncidentAlert(data.barragemId, data.severidade, data.estrutura, data.relato, insertedId);
      if alert.Some? {
        var _ := CreateAlerta(alert.value, alertId);
      }
    }

    /** `toggleUserStatus`: an unknown user is left alone; a known one gets
        `ativo` flipped. */
    method ToggleUserStatus(userId: string)
      modifies this
      ensures users == ToggledUsers(old(users), userId)
      ensures instrumentos == old(instrumentos) && leituras == old(leituras)
      ensures ocorrencias == old(ocorrencias) && alertas == old(alertas) && issued == old(issued)
    {
      if userId !in users {
        return;
      }
      var user := users[userId];
      users := users[userId := user.(ativo := ToggledAtivo(user.ativo) == 1)];
    }

    /** `marcarAlertaComoLido`: `lido = 1` and the read time, for the alert
        with that id if there is one. */
    method MarcarAlertaComoLido(id: int, now: int)
      modifies this
      ensures alertas == MarkedRead(old(alertas), id, now)
      ensures users == old(users) && instrumentos == old(instrumentos) && leituras == old(leituras)
      ensures ocorrencias == old(ocorrencias) && issued == old(issued)
    {
      if id in alertas {
        alertas := alertas[id := alertas[id].(lido := true, dataLeitura := Some(now))];
      }
    }

    /** The tail every `update<Entity>` shares: return without a statement
        when there are no fragments, otherwise stamp (where the table has
        `updatedAt`) and send one UPDATE. */
    method SendUpdate(table: string, stamped: bool, id: int, data: Payload, config: Config,
                      updates: seq<string>, setters: seq<Binding>)
      requires updates == Fragments(data, config) && setters == Setters(data, config)
      modifies this
      ensures issued == old(issued) + OptionToSeq(StatementFor(table, stamped, id, data, config))
      ensures users == old(users) && instrumentos == old(instrumentos) && leituras == old(leituras)
      ensures ocorrencias == old(ocorrencias) && alertas == old(alertas)
    {
      if |updates| == 0 {
        return;
      }
      var assignments := if stamped then updates + [UPDATED_AT] else updates;
      issued := issued + [Statement.Update(table, assignments, [IdBinding(id)] + setters)];
    }

    /** `update<Entity>(id, data)`: collect the fragments (with the `addField`
        copy for barragens) and hand them to the shared tail. */
    method UpdateEntity(e: Entity, id: int, data: Payload)
      modifies this
      ensures issued == old(issued) + OptionToSeq(UpdateStatement(e, id, data))
      ensures users == old(users) && instrumentos == old(instrumentos) && leituras == old(leituras)
      ensures ocorrencias == old(ocorrencias) && alertas == old(alertas)
    {
      var updates, setters;
      if e == Barragens {
        updates, setters := UpdateBarragemFragments(data);
      } else {
        updates, setters := BuildUpdateFragments(data, ConfigOf(e));
      }
      SendUpdate(TableName(e), StampsUpdatedAt(e), id, data, ConfigOf(e), updates, setters);
    }
  }
}
