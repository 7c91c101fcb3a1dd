/** The active-tasks list: the deadline text of each card and the buttons it
    offers. A card is drawn as late when `Deadline.IsLate` holds. */
module TarefasAtivas {
  import opened Wrappers
  import opened Calendar
  import opened Text
  import opened Tasks

  /** `yyyy`: the year padded to four digits. */
  function YearText4(y: int): string
  {
    if y >= 0 then Padded(y, 4) else "-" + Padded(-y, 4)
  }

  /** `format(parseISO(prazo_data), "dd/MM/yyyy")`. */
  function DateText(day: int): (s: string)
    ensures |s| >= 10
  {
    var d := DateOfDay(day);
    Padded(d.day, 2) + "/" + Padded(d.month, 2) + "/" + YearText4(d.year)
  }

  const FimDoDia: string := "fim do dia"
  const SemPrazo: string := "Sem prazo"

  /** `prazo_hora || 'fim do dia'`. */
  function HoraText(hora: Option<TimeOfDay>): string
  {
    match hora
    case None => FimDoDia
    case Some(t) => Padded(t.hour, 2) + ":" + Padded(t.minute, 2)
  }

  /** `formatarPrazo`. */
  function FormatarPrazo(t: Task): string
  {
    match t.prazoData
    case None => SemPrazo
    case Some(day) => DateText(day) + " às " + HoraText(t.prazoHora)
  }

  /** "Sem prazo" is shown exactly for the tasks without a due date. */
  lemma SemPrazoIffNoDueDate(t: Task)
    ensures FormatarPrazo(t) == SemPrazo <==> t.prazoData.None?
  {
    if t.prazoData.Some? {
      assert |FormatarPrazo(t)| > |SemPrazo|;
    }
  }

  /** With a due date, the text ends in "fim do dia" exactly when there is no due time. */
  lemma FimDoDiaIffNoDueTime(t: Task)
    requires t.prazoData.Some?
    ensures var s := FormatarPrazo(t);
      |s| >= |FimDoDia| && (s[|s| - |FimDoDia|..] == FimDoDia <==> t.prazoHora.None?)
  {
    var s := FormatarPrazo(t);
    if t.prazoHora.Some? {
      var h := t.prazoHora.value;
      var m := Padded(h.minute, 2);
      assert s[|s| - 1] == m[|m| - 1];
      assert IsDigit(s[|s| - 1]);
      assert FimDoDia[|FimDoDia| - 1] == 'a';
    }
  }

  /** The buttons a task card offers to the signed-in user. */
  datatype Acoes = Acoes(concluir: bool, editar: bool, excluir: bool)

  function AcoesPermitidas(t: Task, userId: string, isAdmin: bool): (r: Acoes)
    ensures r.concluir <==> t.responsavel == userId || isAdmin
    ensures r.editar == r.excluir == isAdmin
    ensures r.editar ==> r.concluir
  {
    Acoes(t.responsavel == userId || isAdmin, isAdmin, isAdmin)
  }
}
