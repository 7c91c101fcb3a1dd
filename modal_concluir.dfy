/** The "complete task" dialog: whether completion is allowed, which
    justification is stored, and how the stored task is then counted. */
module ModalConcluir {
  import opened Wrappers
  import opened Calendar
  import opened Tasks
  import opened Deadline

  const AlertaJustificativa: string :=
    "Por favor, forneça uma justificativa ou marque que não estava atrasada"

  /** The update sent to the task store (`dados`): `justificativa` is None when
      the field is not written at all. */
  datatype Dados = Dados(status: string, concluidoEm: int, justificativa: Option<string>)

  datatype Resultado = Recusado(alerta: string) | Atualizar(dados: Dados)

  /** The guard and the payload of `handleConcluir`, given the lateness shown
      in the dialog and the two form fields. */
  function Concluir(atrasada: bool, justificativa: string, naoEstaAtrasada: bool, now: int): (r: Resultado)
    ensures r.Recusado? ==> r.alerta == AlertaJustificativa && atrasada
    ensures r.Atualizar? ==> r.dados.status == Concluido && r.dados.concluidoEm == now
    ensures r.Atualizar? && r.dados.justificativa.Some? ==>
      r.dados.justificativa.value in {justificativa, NotLateSentinel}
  {
    if atrasada && justificativa == "" && !naoEstaAtrasada then
      Recusado(AlertaJustificativa)
    else
      Atualizar(Dados(Concluido, now,
        if atrasada && justificativa != "" then Some(justificativa)
        else if naoEstaAtrasada then Some(NotLateSentinel)
        else None))
  }

  /** What the update does to the stored row: the fields it names are replaced,
      an unwritten justification keeps the stored one, and no other column changes. */
  function Aplicar(t: Task, d: Dados): (t': Task)
    ensures t'.status == d.status && t'.concluidoEm == Some(d.concluidoEm)
    ensures t'.justificativa == (if d.justificativa.Some? then d.justificativa.value else t.justificativa)
    ensures t'.(status := t.status, concluidoEm := t.concluidoEm, justificativa := t.justificativa) == t
  {
    t.(status := d.status, concluidoEm := Some(d.concluidoEm),
       justificativa := if d.justificativa.Some? then d.justificativa.value else t.justificativa)
  }

  /** Completion is refused exactly for a late task with neither a justification
      nor the "not late" box; a task that is not late is always accepted. */
  lemma RefusedIff(atrasada: bool, justificativa: string, naoEstaAtrasada: bool, now: int)
    ensures Concluir(atrasada, justificativa, naoEstaAtrasada, now).Recusado? <==>
      atrasada && justificativa == "" && !naoEstaAtrasada
    ensures !atrasada ==> Concluir(atrasada, justificativa, naoEstaAtrasada, now).Atualizar?
  {
  }

  /** Every accepted completion marks the task completed at `now`, and what it
      stores as justification. */
  lemma AcceptedPayload(atrasada: bool, justificativa: string, naoEstaAtrasada: bool, now: int)
    requires Concluir(atrasada, justificativa, naoEstaAtrasada, now).Atualizar?
    ensures var d := Concluir(atrasada, justificativa, naoEstaAtrasada, now).dados;
      && d.status == Concluido && d.concluidoEm == now
      && (atrasada && justificativa != "" ==> d.justificativa == Some(justificativa))
      && (!(atrasada && justificativa != "") && naoEstaAtrasada ==> d.justificativa == Some(NotLateSentinel))
      && (d.justificativa.None? <==> !atrasada && !naoEstaAtrasada)
      && d.justificativa != Some("")
  {
  }

  /** The box alone makes the stored task count as on time in the admin panel. */
  lemma CheckboxCountsOnTime(t: Task, atrasada: bool, now: int, today: int)
    requires t.prazoData.Some?
    requires Concluir(atrasada, "", true, now).Atualizar?
    ensures BucketOf(Aplicar(t, Concluir(atrasada, "", true, now).dados), today) == OnTime
  {
  }

  /** A late task completed with a typed justification is counted as late by the
      admin panel: the typed text replaces the sentinel even when the box is set. */
  lemma TypedJustificationCountedLate(t: Task, justificativa: string, nao: bool,
                                      renderedAt: int, now: int, today: int)
    requires ValidHora(t.prazoHora) && renderedAt <= now
    requires IsLate(t, renderedAt)
    requires justificativa != "" && justificativa != NotLateSentinel
    ensures var r := Concluir(true, justificativa, nao, now);
      r.Atualizar? && BucketOf(Aplicar(t, r.dados), today) == Late
  {
    LateIffDueDayBeforeToday(t, renderedAt);
    var day := t.prazoData.value;
    DueInstantInDueDay(day, t.prazoHora, EndOfDayCompleted);
    var due := DueInstant(day, t.prazoHora, EndOfDayCompleted);
    DayOfBounds(due);
    DayOfBounds(renderedAt);
    assert due < (day + 1) * MsPerDay <= DayOf(renderedAt) * MsPerDay <= now;
  }

  /** The two rules disagree on the due day: completing a task on its due day
      after its due time needs no justification (it is not late), yet the
      admin panel then counts the completed task as late. */
  lemma SameDayAfterDueTimeCountedLate(t: Task, now: int, today: int)
    requires IsAtiva(t) && t.prazoData.Some? && t.prazoHora.Some? && ValidTime(t.prazoHora.value)
    requires t.justificativa == ""
    requires DayOf(now) == t.prazoData.value
    requires now > DueInstant(t.prazoData.value, t.prazoHora, EndOfDayCompleted)
    ensures !IsLate(t, now)
    ensures var r := Concluir(IsLate(t, now), "", false, now);
      r.Atualizar? && r.dados.justificativa.None? && BucketOf(Aplicar(t, r.dados), today) == Late
  {
    LateIffDueDayBeforeToday(t, now);
  }

  /** The dialog's state: the two form fields and the busy flag. */
  class ConcluirForm {
    const tarefa: Task
    var justificativa: string
    var naoEstaAtrasada: bool
    var loading: bool

    constructor (tarefa: Task)
      ensures this.tarefa == tarefa
      ensures justificativa == "" && !naoEstaAtrasada && !loading
    {
      this.tarefa := tarefa;
      justificativa := "";
      naoEstaAtrasada := false;
      loading := false;
    }

    method SetJustificativa(texto: string)
      modifies this
      ensures justificativa == texto
      ensures naoEstaAtrasada == old(naoEstaAtrasada) && loading == old(loading)
    {
      justificativa := texto;
    }

    method SetNaoEstaAtrasada(marcado: bool)
      modifies this
      ensures naoEstaAtrasada == marcado
      ensures justificativa == old(justificativa) && loading == old(loading)
    {
      naoEstaAtrasada := marcado;
    }

    /** `handleConcluir`, clicked at `now` in a dialog last drawn at `renderedAt`
        (when `atrasada` was computed). The store's reply, the success callback
        and the error alert are outside the model; `loading` is back to false
        once the update has been issued. */
    method HandleConcluir(renderedAt: int, now: int) returns (r: Resultado)
      modifies this
      ensures r == Concluir(IsLate(tarefa, renderedAt), old(justificativa), old(naoEstaAtrasada), now)
      ensures justificativa == old(justificativa) && naoEstaAtrasada == old(naoEstaAtrasada)
      ensures loading == (if r.Recusado? then old(loading) else false)
    {
      var atrasada := IsLate(tarefa, renderedAt);
      if atrasada && justificativa == "" && !naoEstaAtrasada {
        r := Recusado(AlertaJustificativa);
        return;
      }
      loading := true;
      var j: Option<string> := None;
      if atrasada && justificativa != "" {
        j := Some(justificativa);
      } else if naoEstaAtrasada {
        j := Some(NotLateSentinel);
      }
      r := Atualizar(Dados(Concluido, now, j));
      loading := false;
    }
  }
}
