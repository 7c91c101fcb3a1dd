/** The admin panel's three filters and `tarefasFiltradas`. */
module PainelFiltros {
  import opened Wrappers
  import opened Calendar
  import opened Tasks
  import opened Seqs

  /** The "Período" selector. */
  datatype Periodo = Todos | EsteMes | MesPassado | Ultimos3 | Ultimos6 | EsteAno | Customizado

  /** The "Mês/Ano" selector: every month, or one month by its key. */
  datatype MesAno = TodosMeses | Mes(key: int)

  /** `filtroResponsavel` (None for 'todos'), `filtroPeriodo`, `filtroMesAno`. */
  datatype Filtros = Filtros(responsavel: Option<string>, periodo: Periodo, mesAno: MesAno)

  /** Whether some date test applies: a month is chosen, or a named period. */
  predicate FiltraPorData(f: Filtros)
  {
    f.mesAno.Mes? || !(f.periodo == Todos || f.periodo == Customizado)
  }

  /** The day a date test looks at: the completion day of a completed task, the
      due day of an active one; None when that date is missing. */
  function DiaFiltrado(t: Task): Option<int>
  {
    if IsConcluido(t) then
      (if t.concluidoEm.Some? then Some(DayOf(t.concluidoEm.value)) else None)
    else t.prazoData
  }

  /** The date test of the chosen month or period, on the day it looks at. A
      chosen month wins over the period. The "last 3/6 months" windows compare
      with the first day of the month three (six) months back, as
      `data >= new Date(ano, mes - 3, 1)` does. */
  predicate NaJanela(day: int, f: Filtros, now: int)
  {
    var atual := MonthKeyOfDay(DayOf(now));
    match f.mesAno
    case Mes(k) => MonthKeyOfDay(day) == k
    case TodosMeses =>
      match f.periodo
      case EsteMes => MonthKeyOfDay(day) == atual
      case MesPassado => MonthKeyOfDay(day) == atual - 1
      case Ultimos3 => day >= FirstDayOfKey(atual - 3)
      case Ultimos6 => day >= FirstDayOfKey(atual - 6)
      case EsteAno => YearOfDay(day) == YearOfDay(DayOf(now))
      case Todos => true
      case Customizado => true
  }

  /** Whether one task survives the filters. */
  predicate Mantem(t: Task, f: Filtros, now: int)
  {
    && (f.responsavel.None? || t.responsavel == f.responsavel.value)
    && (FiltraPorData(f) ==> DiaFiltrado(t).Some? && NaJanela(DiaFiltrado(t).value, f, now))
  }

  /** `tarefasFiltradas`. */
  function TarefasFiltradas(tarefas: seq<Task>, f: Filtros, now: int): (r: seq<Task>)
    ensures |r| <= |tarefas|
    ensures forall i :: 0 <= i < |r| ==> r[i] in tarefas && Mantem(r[i], f, now)
  {
    Filter((t: Task) => Mantem(t, f, now), tarefas)
  }

  /** The filtered list is the input with some tasks deleted, in the same order,
      and holds exactly the tasks that pass the filters. */
  lemma FiltradasIsSubsequence(tarefas: seq<Task>, f: Filtros, now: int)
    ensures IsSubsequence(TarefasFiltradas(tarefas, f, now), tarefas)
    ensures forall t :: t in TarefasFiltradas(tarefas, f, now) <==> t in tarefas && Mantem(t, f, now)
  {
    var r := TarefasFiltradas(tarefas, f, now);
    FilterIsSubsequence((t: Task) => Mantem(t, f, now), tarefas);
    forall t | t in tarefas && Mantem(t, f, now) ensures t in r {
      var i :| 0 <= i < |tarefas| && tarefas[i] == t;
    }
    forall t | t in r ensures t in tarefas && Mantem(t, f, now) {
      var i :| 0 <= i < |r| && r[i] == t;
    }
  }

  lemma FiltradasSnoc(init: seq<Task>, t: Task, f: Filtros, now: int)
    ensures TarefasFiltradas(init + [t], f, now) ==
      TarefasFiltradas(init, f, now) + (if Mantem(t, f, now) then [t] else [])
  {
    assert (init + [t])[..|init|] == init;
    assert TarefasFiltradas(init + [t], f, now) == Filter((t: Task) => Mantem(t, f, now), init + [t]);
    assert TarefasFiltradas(init, f, now) == Filter((t: Task) => Mantem(t, f, now), init);
  }

  /** A chosen month overrides the period: the period is then irrelevant. */
  lemma MesAnoOverridesPeriodo(tarefas: seq<Task>, f: Filtros, p: Periodo, now: int)
    requires f.mesAno.Mes?
    ensures TarefasFiltradas(tarefas, f.(periodo := p), now) == TarefasFiltradas(tarefas, f, now)
  {
    var g := f.(periodo := p);
    FilterExtensional((t: Task) => Mantem(t, g, now), (t: Task) => Mantem(t, f, now), tarefas);
    assert TarefasFiltradas(tarefas, g, now) == Filter((t: Task) => Mantem(t, g, now), tarefas);
  }

  /** Under a date test, completed tasks are tested by completion date and active
      tasks by due date, and a task lacking that date is left out. */
  lemma DateTestUsesTheRightDate(t: Task, f: Filtros, now: int)
    requires FiltraPorData(f)
    ensures IsConcluido(t) && t.concluidoEm.None? ==> !Mantem(t, f, now)
    ensures IsAtiva(t) && t.prazoData.None? ==> !Mantem(t, f, now)
    ensures IsConcluido(t) && t.concluidoEm.Some? && f.responsavel.None? ==>
      (Mantem(t, f, now) <==> NaJanela(DayOf(t.concluidoEm.value), f, now))
    ensures IsAtiva(t) && t.prazoData.Some? && f.responsavel.None? ==>
      (Mantem(t, f, now) <==> NaJanela(t.prazoData.value, f, now))
  {
  }

  /** With no responsible chosen and no date test, nothing is filtered out. */
  lemma NoFilterKeepsAll(tarefas: seq<Task>, f: Filtros, now: int)
    requires f.responsavel.None? && !FiltraPorData(f)
    ensures TarefasFiltradas(tarefas, f, now) == tarefas
  {
    FilterAll((t: Task) => Mantem(t, f, now), tarefas);
  }

  /** The "last 3/6 months" windows are month comparisons: they keep a day
      exactly when its month is at most three (six) months before the current
      one, and they have no upper bound. */
  lemma UltimosIsMonthWindow(day: int, f: Filtros, now: int)
    requires f.mesAno.TodosMeses? && (f.periodo == Ultimos3 || f.periodo == Ultimos6)
    ensures NaJanela(day, f, now) <==>
      MonthKeyOfDay(day) >= MonthKeyOfDay(DayOf(now)) - (if f.periodo == Ultimos3 then 3 else 6)
  {
    var atual := MonthKeyOfDay(DayOf(now));
    OnOrAfterFirstOfMonth(day, atual - (if f.periodo == Ultimos3 then 3 else 6));
  }

  /** The panel's filter state and the two handlers that keep the period and
      month selectors from contradicting each other. */
  class FiltrosPainel {
    var responsavel: Option<string>
    var periodo: Periodo
    var mesAno: MesAno

    /** A chosen month always comes with the period set to "customizado". */
    predicate Valid()
      reads this
    {
      mesAno.Mes? ==> periodo == Customizado
    }

    function Atuais(): Filtros
      reads this
    {
      Filtros(responsavel, periodo, mesAno)
    }

    constructor ()
      ensures responsavel.None? && periodo == Todos && mesAno == TodosMeses
      ensures Valid()
    {
      responsavel, periodo, mesAno := None, Todos, TodosMeses;
    }

    /** The "Responsável" selector's `onChange`: it leaves the other two alone. */
    method SetResponsavel(valor: Option<string>)
      modifies this
      ensures Valid() == old(Valid())
      ensures responsavel == valor && periodo == old(periodo) && mesAno == old(mesAno)
    {
      responsavel := valor;
    }

    /** `handlePeriodoChange`: any period but "customizado" resets the month to "todos". */
    method HandlePeriodoChange(valor: Periodo)
      modifies this
      ensures Valid()
      ensures periodo == valor
      ensures mesAno == (if valor != Customizado then TodosMeses else old(mesAno))
      ensures responsavel == old(responsavel)
    {
      periodo := valor;
      if valor != Customizado {
        mesAno := TodosMeses;
      }
    }

    /** `handleMesAnoChange`: a month sets the period to "customizado", "todos" sets it to "todos". */
    method HandleMesAnoChange(valor: MesAno)
      modifies this
      ensures Valid()
      ensures mesAno == valor
      ensures periodo == (if valor.Mes? then Customizado else Todos)
      ensures responsavel == old(responsavel)
    {
      mesAno := valor;
      periodo := if valor != TodosMeses then Customizado else Todos;
    }
  }

  /** What the panel shows with a month chosen: in a consistent state the
      period reads "customizado", and the list is the month filter alone,
      whatever the period selector holds. */
  lemma PainelComMesEscolhido(painel: FiltrosPainel, tarefas: seq<Task>, now: int)
    requires painel.mesAno.Mes?
    ensures painel.Valid() ==> painel.Atuais() == Filtros(painel.responsavel, Customizado, painel.mesAno)
    ensures TarefasFiltradas(tarefas, painel.Atuais(), now) ==
      TarefasFiltradas(tarefas, Filtros(painel.responsavel, Todos, painel.mesAno), now)
  {
    MesAnoOverridesPeriodo(tarefas, painel.Atuais(), Todos, now);
  }
}
