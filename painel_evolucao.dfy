/** The admin panel's monthly chart (`dadosEvolucao`): for each of the last
    twelve months, the share of the tasks completed in that month that met
    their deadline. It reads the whole task list, not the filtered one. */
module PainelEvolucao {
  import opened Wrappers
  import opened Calendar
  import opened Text
  import opened Tasks
  import opened Deadline
  import opened Seqs
  import opened PainelStats
  import opened PainelFiltros

  /** The month abbreviations `formatarMes` uses, January first. */
  function Abreviatura(m: int): (s: string)
    requires 1 <= m <= 12
    ensures |s| == 3
  {
    match m
    case 1 => "Jan" case 2 => "Fev" case 3 => "Mar" case 4 => "Abr"
    case 5 => "Mai" case 6 => "Jun" case 7 => "Jul" case 8 => "Ago"
    case 9 => "Set" case 10 => "Out" case 11 => "Nov" case _ => "Dez"
  }

  /** Reads the month back from its abbreviation, letter by letter. */
  function MesDaAbreviatura(s: string): int
    requires |s| == 3
  {
    match s[0]
    case 'F' => 2 case 'S' => 9 case 'O' => 10 case 'N' => 11 case 'D' => 12
    case 'J' => if s[1] == 'a' then 1 else if s[2] == 'n' then 6 else 7
    case 'M' => if s[2] == 'r' then 3 else 5
    case 'A' => if s[1] == 'b' then 4 else 8
    case _ => 0
  }

  /** Each abbreviation names one month. */
  lemma AbreviaturaInjective(m: int)
    requires 1 <= m <= 12
    ensures MesDaAbreviatura(Abreviatura(m)) == m
  {
  }

  /** `formatarMes`: "Mmm/yyyy" for the month with key k. */
  function FormatarMes(k: int): string
  {
    Abreviatura(KeyMonth(k)) + "/" + IntText(KeyYear(k))
  }

  /** Different months get different labels. */
  lemma FormatarMesInjective(a: int, b: int)
    requires FormatarMes(a) == FormatarMes(b)
    ensures a == b
  {
    var sa, sb := FormatarMes(a), FormatarMes(b);
    assert Abreviatura(KeyMonth(a)) == sa[..3] == sb[..3] == Abreviatura(KeyMonth(b));
    AbreviaturaInjective(KeyMonth(a));
    AbreviaturaInjective(KeyMonth(b));
    assert IntText(KeyYear(a)) == sa[4..] == sb[4..] == IntText(KeyYear(b));
    IntTextInjective(KeyYear(a), KeyYear(b));
  }

  /** The test of `tarefasDoMes`: a completion instant in month k. The status
      is not looked at. */
  predicate ConcluidaNoMes(t: Task, k: int)
  {
    t.concluidoEm.Some? && MonthKeyOfInstant(t.concluidoEm.value) == k
  }

  function TarefasDoMes(tarefas: seq<Task>, k: int): seq<Task>
  {
    Filter((t: Task) => ConcluidaNoMes(t, k), tarefas)
  }

  /** A task with both a due date and a completion instant enters `totalMes`. */
  predicate Avaliada(t: Task)
  {
    t.prazoData.Some? && t.concluidoEm.Some?
  }

  /** ... and `noPrazoMes` when the completed-task rule calls it on time. */
  predicate AvaliadaNoPrazo(t: Task)
  {
    Avaliada(t) && CompletedOnTime(t)
  }

  /** `(totalMes, noPrazoMes)` after the loop has seen all of `s`. */
  function ContagemMes(s: seq<Task>): (c: (nat, nat))
    ensures c.1 <= c.0 <= |s|
    decreases |s|
  {
    if s == [] then (0, 0)
    else
      var c := ContagemMes(s[..|s| - 1]);
      var t := s[|s| - 1];
      (c.0 + (if Avaliada(t) then 1 else 0), c.1 + (if AvaliadaNoPrazo(t) then 1 else 0))
  }

  /** One point of the chart. */
  datatype PontoEvolucao = PontoEvolucao(mes: string, percentual: real)

  function Ponto(tarefas: seq<Task>, k: int): PontoEvolucao
  {
    var c := ContagemMes(TarefasDoMes(tarefas, k));
    PontoEvolucao(FormatarMes(k), Percentual(c.1, c.0))
  }

  /** The month keys of the chart: eleven months back up to the current one,
      `atual` being the key of the current month. */
  function MesDoPonto(atual: int, j: int): int
  {
    atual - 11 + j
  }

  /** The first n points of the chart. */
  function PrimeirosPontos(tarefas: seq<Task>, atual: int, n: nat): (e: seq<PontoEvolucao>)
    ensures |e| == n
    ensures forall j :: 0 <= j < n ==> e[j] == Ponto(tarefas, MesDoPonto(atual, j))
  {
    if n == 0 then [] else PrimeirosPontos(tarefas, atual, n - 1) + [Ponto(tarefas, MesDoPonto(atual, n - 1))]
  }

  /** `dadosEvolucao`: twelve points, oldest month first. */
  function Evolucao(tarefas: seq<Task>, atual: int): seq<PontoEvolucao>
  {
    PrimeirosPontos(tarefas, atual, 12)
  }

  /** The loop of `dadosEvolucao`: i runs from 11 down to 0 over the month
      `i` months before the current one, filtering and then counting. */
  method CalcularDadosEvolucao(tarefas: seq<Task>, now: int) returns (dados: seq<PontoEvolucao>)
    ensures dados == Evolucao(tarefas, MonthKeyOfInstant(now))
  {
    var atual := MonthKeyOfInstant(now);
    dados := [];
    for i := 12 downto 0
      invariant dados == PrimeirosPontos(tarefas, atual, 12 - i)
    {
      var mes := atual - i;
      var tarefasDoMes := TarefasDoMes(tarefas, mes);
      var totalMes, noPrazoMes := ContarMes(tarefasDoMes);
      assert MesDoPonto(atual, 11 - i) == mes;
      assert PontoEvolucao(FormatarMes(mes), Percentual(noPrazoMes, totalMes)) == Ponto(tarefas, mes);
      dados := dados + [PontoEvolucao(FormatarMes(mes), Percentual(noPrazoMes, totalMes))];
    }
  }

  /** The `forEach` over one month's tasks: `totalMes` and `noPrazoMes`. */
  method ContarMes(tarefasDoMes: seq<Task>) returns (totalMes: nat, noPrazoMes: nat)
    ensures (totalMes, noPrazoMes) == ContagemMes(tarefasDoMes)
  {
    totalMes, noPrazoMes := 0, 0;
    for j := 0 to |tarefasDoMes|
      invariant (totalMes, noPrazoMes) == ContagemMes(tarefasDoMes[..j])
    {
      var tarefa := tarefasDoMes[j];
      assert tarefasDoMes[..j + 1][..j] == tarefasDoMes[..j];
      if tarefa.prazoData.Some? && tarefa.concluidoEm.Some? {
        totalMes := totalMes + 1;
        if CompletedOnTime(tarefa) {
          noPrazoMes := noPrazoMes + 1;
        }
      }
    }
    assert tarefasDoMes[..|tarefasDoMes|] == tarefasDoMes;
  }

  /** Twelve distinct consecutive months, the last one the current month,
      each percentage in [0, 100]; a month without an evaluated completion
      shows 0, and one with evaluated completions shows 100 exactly when all
      of them met their deadline. */
  lemma EvolucaoSpec(tarefas: seq<Task>, atual: int)
    ensures var e := Evolucao(tarefas, atual);
      && |e| == 12
      && e[11].mes == FormatarMes(atual)
      && (forall i, j :: 0 <= i < j < 12 ==> e[i].mes != e[j].mes)
      && (forall j :: 0 <= j < 12 ==>
            var c := ContagemMes(TarefasDoMes(tarefas, MesDoPonto(atual, j)));
            && 0.0 <= e[j].percentual <= 100.0
            && (c.0 == 0 ==> e[j].percentual == 0.0)
            && (c.0 > 0 ==> (e[j].percentual == 100.0 <==> c.1 == c.0)))
  {
    var e := Evolucao(tarefas, atual);
    forall i, j | 0 <= i < j < 12 ensures e[i].mes != e[j].mes {
      if e[i].mes == e[j].mes {
        FormatarMesInjective(MesDoPonto(atual, i), MesDoPonto(atual, j));
      }
    }
    forall j | 0 <= j < 12
      ensures var c := ContagemMes(TarefasDoMes(tarefas, MesDoPonto(atual, j)));
        c.0 > 0 ==> (e[j].percentual == 100.0 <==> c.1 == c.0)
    {
      var c := ContagemMes(TarefasDoMes(tarefas, MesDoPonto(atual, j)));
      if c.0 > 0 {
        PercentualCheio(c.1, c.0);
      }
    }
  }

  lemma ContagemMesSnoc(s: seq<Task>, t: Task)
    ensures ContagemMes(s + [t]) ==
      (ContagemMes(s).0 + (if Avaliada(t) then 1 else 0),
       ContagemMes(s).1 + (if AvaliadaNoPrazo(t) then 1 else 0))
  {
    var u := s + [t];
    assert u[..|u| - 1] == s && u[|u| - 1] == t;
  }

  lemma TarefasDoMesSnoc(init: seq<Task>, t: Task, k: int)
    ensures TarefasDoMes(init + [t], k) == TarefasDoMes(init, k) + (if ConcluidaNoMes(t, k) then [t] else [])
  {
    assert (init + [t])[..|init|] == init;
    assert TarefasDoMes(init + [t], k) == Filter((t: Task) => ConcluidaNoMes(t, k), init + [t]);
    assert TarefasDoMes(init, k) == Filter((t: Task) => ConcluidaNoMes(t, k), init);
  }

  /** What one completed task adds to the chart's counts and to the buckets. */
  lemma UnidadeConcluida(t: Task, now: int)
    requires IsConcluido(t)
    ensures (if Avaliada(t) then 1 else 0) == Unidade(t, now).noPrazo + Unidade(t, now).atrasadas
    ensures (if AvaliadaNoPrazo(t) then 1 else 0) == Unidade(t, now).noPrazo
  {
  }

  /** For completed tasks, the chart agrees with the summary counters: the
      month-k point's counts are those the panel shows with month k chosen,
      the evaluated tasks being those it puts in either bucket. */
  lemma {:induction false} ChartAgreesWithMonthFilter(tarefas: seq<Task>, k: int, now: int)
    requires forall i :: 0 <= i < |tarefas| ==> IsConcluido(tarefas[i])
    ensures var c := ContagemMes(TarefasDoMes(tarefas, k));
      var s := ContagemDe(TarefasFiltradas(tarefas, Filtros(None, Customizado, Mes(k)), now), now);
      c.0 == s.noPrazo + s.atrasadas && c.1 == s.noPrazo
    decreases |tarefas|
  {
    if tarefas != [] {
      var init, t := tarefas[..|tarefas| - 1], tarefas[|tarefas| - 1];
      assert tarefas == init + [t];
      var f := Filtros(None, Customizado, Mes(k));
      ChartAgreesWithMonthFilter(init, k, now);
      TarefasDoMesSnoc(init, t, k);
      FiltradasSnoc(init, t, f, now);
      assert IsConcluido(t);
      assert Mantem(t, f, now) == ConcluidaNoMes(t, k);
      var mesI, filtI := TarefasDoMes(init, k), TarefasFiltradas(init, f, now);
      if ConcluidaNoMes(t, k) {
        assert TarefasDoMes(tarefas, k) == mesI + [t];
        assert TarefasFiltradas(tarefas, f, now) == filtI + [t];
        ContagemMesSnoc(mesI, t);
        ContagemDeSnoc(filtI, t, now);
        UnidadeConcluida(t, now);
        var u := Unidade(t, now);
        assert ContagemDe(filtI + [t], now) == Somar(ContagemDe(filtI, now), u);
        assert ContagemMes(mesI + [t]).1 == ContagemMes(mesI).1 + u.noPrazo;
      } else {
        assert TarefasDoMes(tarefas, k) == mesI;
        assert TarefasFiltradas(tarefas, f, now) == filtI;
      }
    }
  }
}
