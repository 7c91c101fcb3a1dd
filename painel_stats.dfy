/** The admin panel's summary counters (`stats`) and the per-task tally they
    share with the per-responsible breakdown. */
module PainelStats {
  import opened Wrappers
  import opened Tasks
  import opened Deadline
  import opened Seqs
  import Dashboard

  /** The counters of one `forEach` over a list of tasks. */
  datatype Contagem = Contagem(total: nat, concluidas: nat, ativas: nat, noPrazo: nat, atrasadas: nat)

  const Nenhuma: Contagem := Contagem(0, 0, 0, 0, 0)

  /** Componentwise sum of two sets of counters. */
  function Somar(a: Contagem, b: Contagem): Contagem
  {
    Contagem(a.total + b.total, a.concluidas + b.concluidas, a.ativas + b.ativas,
             a.noPrazo + b.noPrazo, a.atrasadas + b.atrasadas)
  }

  /** Adding counters is associative and commutative, with `Nenhuma` as unit. */
  lemma SomarAC(a: Contagem, b: Contagem, c: Contagem)
    ensures Somar(a, Somar(b, c)) == Somar(Somar(a, b), c)
    ensures Somar(Somar(a, c), b) == Somar(Somar(a, b), c)
    ensures Somar(Nenhuma, a) == a && Somar(a, Nenhuma) == a
  {
  }

  /** What one task adds to the counters: one to the total, one to completed
      or active, and one to the bucket `BucketOf` puts it in, if any. */
  function Unidade(t: Task, now: int): Contagem
  {
    var b := BucketOf(t, now);
    Contagem(1,
      if IsConcluido(t) then 1 else 0,
      if IsConcluido(t) then 0 else 1,
      if b == OnTime then 1 else 0,
      if b == Late then 1 else 0)
  }

  /** One step of the loop: bump the counters for task t. */
  function Contar(c: Contagem, t: Task, now: int): Contagem
  {
    Somar(c, Unidade(t, now))
  }

  /** The counters after the loop has seen all of `ts`. */
  function ContagemDe(ts: seq<Task>, now: int): (c: Contagem)
    ensures c.total == |ts|
    ensures c.concluidas + c.ativas == c.total
    ensures c.noPrazo + c.atrasadas <= c.total
    decreases |ts|
  {
    if ts == [] then Nenhuma
    else Contar(ContagemDe(ts[..|ts| - 1], now), ts[|ts| - 1], now)
  }

  /** Appending a task to a list bumps its counters by that task's unit. */
  lemma ContagemDeSnoc(s: seq<Task>, t: Task, now: int)
    ensures ContagemDe(s + [t], now) == Contar(ContagemDe(s, now), t, now)
  {
    assert (s + [t])[..|s|] == s;
  }

  /** `((parte / total) * 100)`, or 0 when there is nothing to divide by
      (the rounding of `toFixed(1)` is not modelled). */
  function Percentual(parte: nat, total: nat): (p: real)
    ensures total == 0 ==> p == 0.0
    ensures parte <= total ==> 0.0 <= p <= 100.0
    ensures total > 0 ==> p * (total as real) == (parte as real) * 100.0
  {
    if total > 0 then (parte as real / total as real) * 100.0 else 0.0
  }

  /** A part is 100% of its total exactly when it is all of it. */
  lemma PercentualCheio(parte: nat, total: nat)
    requires 0 < total
    ensures Percentual(parte, total) == 100.0 <==> parte == total
  {
    if parte == total {
      assert parte as real / total as real == 1.0;
    }
  }

  /** The object `stats` returns. */
  datatype Stats = Stats(
    total: nat, concluidas: nat, ativas: nat, noPrazo: nat, atrasadas: nat,
    percentualNoPrazo: real, percentualAtrasadas: real)

  function StatsDe(ts: seq<Task>, now: int): (s: Stats)
    ensures s.total == |ts| && s.concluidas + s.ativas == s.total
    ensures s.noPrazo + s.atrasadas <= s.total
  {
    var c := ContagemDe(ts, now);
    Stats(c.total, c.concluidas, c.ativas, c.noPrazo, c.atrasadas,
          Percentual(c.noPrazo, c.total), Percentual(c.atrasadas, c.total))
  }

  /** `stats`: counts the completed tasks, then walks the list once bumping
      `noPrazo` or `atrasadas`. */
  method CalcularStats(tarefasFiltradas: seq<Task>, now: int) returns (s: Stats)
    ensures s == StatsDe(tarefasFiltradas, now)
  {
    var total := |tarefasFiltradas|;
    var concluidas := |Filter(IsConcluido, tarefasFiltradas)|;
    ConcluidasAreArchived(tarefasFiltradas, now);
    var ativas := total - concluidas;
    var noPrazo, atrasadas := ContarPrazos(tarefasFiltradas, now);
    s := Stats(total, concluidas, ativas, noPrazo, atrasadas,
               Percentual(noPrazo, total), Percentual(atrasadas, total));
  }

  /** The `forEach` of `stats`: each task bumps the counter of its bucket. */
  method ContarPrazos(tarefasFiltradas: seq<Task>, now: int) returns (noPrazo: nat, atrasadas: nat)
    ensures noPrazo == ContagemDe(tarefasFiltradas, now).noPrazo
    ensures atrasadas == ContagemDe(tarefasFiltradas, now).atrasadas
  {
    noPrazo, atrasadas := 0, 0;
    for i := 0 to |tarefasFiltradas|
      invariant noPrazo == ContagemAte(tarefasFiltradas, i, now).noPrazo
      invariant atrasadas == ContagemAte(tarefasFiltradas, i, now).atrasadas
    {
      var b := BucketOf(tarefasFiltradas[i], now);
      if b == OnTime {
        noPrazo := noPrazo + 1;
      } else if b == Late {
        atrasadas := atrasadas + 1;
      }
    }
    ContagemAteIsContagemDe(tarefasFiltradas, |tarefasFiltradas|, now);
    assert tarefasFiltradas[..|tarefasFiltradas|] == tarefasFiltradas;
  }

  /** The counters after the loop has seen the first n tasks of ts. */
  function ContagemAte(ts: seq<Task>, n: nat, now: int): Contagem
    requires n <= |ts|
  {
    if n == 0 then Nenhuma else Contar(ContagemAte(ts, n - 1, now), ts[n - 1], now)
  }

  lemma {:induction false} ContagemAteIsContagemDe(ts: seq<Task>, n: nat, now: int)
    requires n <= |ts|
    ensures ContagemAte(ts, n, now) == ContagemDe(ts[..n], now)
  {
    if n > 0 {
      ContagemAteIsContagemDe(ts, n - 1, now);
      assert ts[..n][..n - 1] == ts[..n - 1];
    }
  }

  /** `concluidas` counts the tasks whose status is "concluido": the same tasks
      the archived tab lists. */
  lemma {:induction false} ConcluidasAreArchived(ts: seq<Task>, now: int)
    ensures ContagemDe(ts, now).concluidas == |Filter(IsConcluido, ts)| == |Dashboard.TarefasArquivadas(ts)|
    ensures ContagemDe(ts, now).ativas == |Dashboard.TarefasAtivas(ts)|
    decreases |ts|
  {
    if ts != [] {
      ConcluidasAreArchived(ts[..|ts| - 1], now);
    }
  }

  /** A task is counted in neither bucket exactly when it is an active task
      without a due date or a completed task missing its due date or completion
      instant; so the buckets cover the list exactly when no task is such. */
  lemma {:induction false} BucketsCoverIff(ts: seq<Task>, now: int)
    ensures ContagemDe(ts, now).noPrazo + ContagemDe(ts, now).atrasadas == |ts| <==>
      forall i :: 0 <= i < |ts| ==> BucketOf(ts[i], now) != Uncounted
    decreases |ts|
  {
    if ts != [] {
      var init, t := ts[..|ts| - 1], ts[|ts| - 1];
      BucketsCoverIff(init, now);
      var c, u := ContagemDe(init, now), Unidade(t, now);
      assert ContagemDe(ts, now) == Somar(c, u);
      assert u.noPrazo + u.atrasadas == (if BucketOf(t, now) != Uncounted then 1 else 0);
      assert (forall i :: 0 <= i < |ts| ==> BucketOf(ts[i], now) != Uncounted) <==>
        (forall i :: 0 <= i < |init| ==> BucketOf(init[i], now) != Uncounted) && BucketOf(t, now) != Uncounted;
    }
  }

  /** The summary: completed plus active is the total, the two buckets never
      exceed it, both percentages lie in [0, 100] and add up to at most 100,
      and with no tasks everything is 0. */
  lemma StatsInvariants(ts: seq<Task>, now: int)
    ensures var s := StatsDe(ts, now);
      && s.total == |ts|
      && s.concluidas + s.ativas == s.total
      && s.noPrazo + s.atrasadas <= s.total
      && 0.0 <= s.percentualNoPrazo <= 100.0
      && 0.0 <= s.percentualAtrasadas <= 100.0
      && s.percentualNoPrazo + s.percentualAtrasadas <= 100.0
      && (ts == [] ==> s == Stats(0, 0, 0, 0, 0, 0.0, 0.0))
  {
    var c := ContagemDe(ts, now);
    PercentuaisSomam(c.noPrazo, c.atrasadas, c.total);
  }

  /** Two disjoint parts of one total never add up to more than 100%. */
  lemma PercentuaisSomam(a: nat, b: nat, total: nat)
    requires a + b <= total
    ensures Percentual(a, total) + Percentual(b, total) <= 100.0
  {
    if total > 0 {
      var n := total as real;
      var pa, pb := Percentual(a, total), Percentual(b, total);
      assert pa * n == a as real * 100.0;
      assert pb * n == b as real * 100.0;
      assert (pa + pb - 100.0) * n == pa * n + pb * n - 100.0 * n;
      NonPositiveFactor(pa + pb - 100.0, n);
    }
  }

  /** A product with a positive factor is not positive only if the other factor is not. */
  lemma NonPositiveFactor(x: real, n: real)
    requires n > 0.0 && x * n <= 0.0
    ensures x <= 0.0
  {
  }

  /** Example: one completed-on-time task and one overdue active task give a
      total of two, one completed, one active, one on time and one late. */
  lemma OneOnTimeOneLate(done: Task, late: Task, now: int)
    requires IsConcluido(done) && done.prazoData.Some? && done.concluidoEm.Some? && CompletedOnTime(done)
    requires IsAtiva(late) && late.prazoData.Some? && IsLate(late, now)
    ensures ContagemDe([done, late], now) == Contagem(2, 1, 1, 1, 1)
  {
    assert [done, late][..1] == [done];
    assert [done][..0] == [];
  }
}
