/** The lateness rules. `calcularAtraso` is written out identically in
    TarefasAtivas, ModalConcluir and PainelAdmin; it is defined once here as
    `IsLate`. The rule for completed tasks is the one PainelAdmin repeats in
    `stats`, `dadosEvolucao`, `dadosPorResponsavel` and `calcularStatusDetalhado`. */
module Deadline {
  import opened Wrappers
  import opened Calendar
  import opened Tasks

  /** `setHours(23, 59, 59)` on a parsed date: end of day for active tasks. */
  const EndOfDayActive: int := 23 * MsPerHour + 59 * MsPerMinute + 59 * MsPerSecond

  /** `setHours(23, 59, 59, 999)`: end of day for completed tasks. */
  const EndOfDayCompleted: int := EndOfDayActive + 999

  /** The due instant: the due day at `prazo_hora`, or at `endOfDay` when there
      is none. It is never before the start of the due day, and a real time of
      day or an end of day shorter than a day keeps it inside that day. */
  function DueInstant(day: int, hora: Option<TimeOfDay>, endOfDay: int): (due: int)
    ensures endOfDay >= 0 ==> day * MsPerDay <= due
    ensures ValidHora(hora) && endOfDay < MsPerDay ==> due < (day + 1) * MsPerDay
  {
    day * MsPerDay + match hora {
      case Some(t) => t.hour * MsPerHour + t.minute * MsPerMinute
      case None => endOfDay
    }
  }

  /** A real time of day keeps the due instant inside the due day. */
  lemma DueInstantInDueDay(day: int, hora: Option<TimeOfDay>, endOfDay: int)
    requires ValidHora(hora) && 0 <= endOfDay < MsPerDay
    ensures DayOf(DueInstant(day, hora, endOfDay)) == day
  {
    DayOfWithin(day, DueInstant(day, hora, endOfDay));
  }

  /** `calcularAtraso`: an active task is late when its due instant is past
      (`isPast`) and not on today's date (`!isToday`). Whatever the due time,
      a late task has a due date strictly before today. */
  predicate IsLate(t: Task, now: int)
    ensures IsLate(t, now) ==> t.prazoData.Some? && t.prazoData.value < DayOf(now)
  {
    match t.prazoData
    case None => false
    case Some(day) =>
      var due := DueInstant(day, t.prazoHora, EndOfDayActive);
      DayOfBounds(due);
      DayOfBounds(now);
      due < now && DayOf(due) != DayOf(now)
  }

  /** The same-day grace rule: a task is late exactly when it has a due date
      and that date is strictly before today. */
  lemma LateIffDueDayBeforeToday(t: Task, now: int)
    requires ValidHora(t.prazoHora)
    ensures IsLate(t, now) <==> t.prazoData.Some? && t.prazoData.value < DayOf(now)
  {
    if t.prazoData.Some? {
      var day := t.prazoData.value;
      var due := DueInstant(day, t.prazoHora, EndOfDayActive);
      DueInstantInDueDay(day, t.prazoHora, EndOfDayActive);
      DayOfBounds(due);
      DayOfBounds(now);
      if day < DayOf(now) {
        assert due < (day + 1) * MsPerDay <= DayOf(now) * MsPerDay <= now;
      }
    }
  }

  /** The due time never changes whether an active task is late. */
  lemma LatenessIgnoresDueTime(t: Task, hora: Option<TimeOfDay>, now: int)
    requires ValidHora(t.prazoHora) && ValidHora(hora)
    ensures IsLate(t.(prazoHora := hora), now) == IsLate(t, now)
  {
    LateIffDueDayBeforeToday(t, now);
    LateIffDueDayBeforeToday(t.(prazoHora := hora), now);
  }

  /** The completed-task rule: on time when completion is no later than the due
      instant, or when the justification is the "not late" sentinel. So a
      completion on a day before the due day is always on time, and one on a
      later day is on time only with the sentinel. */
  predicate CompletedOnTime(t: Task)
    requires t.prazoData.Some? && t.concluidoEm.Some?
    ensures DayOf(t.concluidoEm.value) < t.prazoData.value ==> CompletedOnTime(t)
    ensures ValidHora(t.prazoHora) && DayOf(t.concluidoEm.value) > t.prazoData.value ==>
      (CompletedOnTime(t) <==> t.justificativa == NotLateSentinel)
  {
    DayOfBounds(t.concluidoEm.value);
    t.concluidoEm.value <= DueInstant(t.prazoData.value, t.prazoHora, EndOfDayCompleted)
    || t.justificativa == NotLateSentinel
  }

  /** Where one task is counted by the admin panel's tallies. */
  datatype Bucket = OnTime | Late | Uncounted

  /** The branch of `stats` and `dadosPorResponsavel` that one task takes: an
      active task is late exactly when `calcularAtraso` says so, a completed one
      on time exactly under the completed-task rule, and a task missing a date
      its rule reads is counted nowhere. */
  function BucketOf(t: Task, now: int): (b: Bucket)
    ensures b == Uncounted <==>
      (IsAtiva(t) && t.prazoData.None?) || (IsConcluido(t) && (t.prazoData.None? || t.concluidoEm.None?))
    ensures IsAtiva(t) && t.prazoData.Some? ==> (b == Late <==> IsLate(t, now))
    ensures IsConcluido(t) && t.prazoData.Some? && t.concluidoEm.Some? ==>
      (b == OnTime <==> CompletedOnTime(t))
  {
    if IsConcluido(t) then
      if t.prazoData.Some? && t.concluidoEm.Some? then
        (if CompletedOnTime(t) then OnTime else Late)
      else Uncounted
    else if t.prazoData.Some? then
      (if IsLate(t, now) then Late else OnTime)
    else Uncounted
  }

  /** Which tasks the tallies count, and how, stated on dates alone. */
  lemma BucketByDates(t: Task, now: int)
    requires ValidHora(t.prazoHora)
    ensures BucketOf(t, now) == Uncounted <==>
      (IsAtiva(t) && t.prazoData.None?) ||
      (IsConcluido(t) && (t.prazoData.None? || t.concluidoEm.None?))
    ensures IsAtiva(t) && t.prazoData.Some? ==>
      (BucketOf(t, now) == Late <==> t.prazoData.value < DayOf(now))
    ensures IsConcluido(t) && t.prazoData.Some? && t.concluidoEm.Some? ==>
      (BucketOf(t, now) == OnTime <==>
        t.concluidoEm.value <= DueInstant(t.prazoData.value, t.prazoHora, EndOfDayCompleted)
        || t.justificativa == NotLateSentinel)
  {
    LateIffDueDayBeforeToday(t, now);
  }

  /** A completed task with no due time is on time up to the last millisecond
      of its due day, and late one second into the next day without a justification. */
  lemma EndOfDueDayBoundary(t: Task, day: int)
    requires IsConcluido(t) && t.prazoData == Some(day) && t.prazoHora.None?
    requires t.justificativa == ""
    ensures BucketOf(t.(concluidoEm := Some(day * MsPerDay + 86_399_999)), 0) == OnTime
    ensures BucketOf(t.(concluidoEm := Some((day + 1) * MsPerDay + 1000)), 0) == Late
  {
  }
}
