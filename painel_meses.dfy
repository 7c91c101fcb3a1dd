/** The months offered by the admin panel's "Mês/Ano" selector
    (`mesesDisponiveis`): every month in which some task was created, completed
    or due, newest first. Months are handled by their keys. */
module PainelMeses {
  import opened Wrappers
  import opened Calendar
  import opened Tasks
  import opened Seqs
  import opened PainelFiltros

  /** The months one task contributes: its creation, completion and due months. */
  function MesesDaTarefa(t: Task): set<int>
  {
    (if t.createdAt.Some? then {MonthKeyOfInstant(t.createdAt.value)} else {})
    + (if t.concluidoEm.Some? then {MonthKeyOfInstant(t.concluidoEm.value)} else {})
    + (if t.prazoData.Some? then {MonthKeyOfDay(t.prazoData.value)} else {})
  }

  /** The set the `forEach` fills. */
  function MesesDe(tarefas: seq<Task>): (meses: set<int>)
    ensures forall k :: k in meses ==> exists i :: 0 <= i < |tarefas| && k in MesesDaTarefa(tarefas[i])
    decreases |tarefas|
  {
    if tarefas == [] then {}
    else
      var init := tarefas[..|tarefas| - 1];
      assert forall i :: 0 <= i < |init| ==> init[i] == tarefas[i];
      MesesDe(init) + MesesDaTarefa(tarefas[|tarefas| - 1])
  }

  lemma {:induction false} MesesDeHasEveryTask(tarefas: seq<Task>, i: int)
    requires 0 <= i < |tarefas|
    ensures MesesDaTarefa(tarefas[i]) <= MesesDe(tarefas)
    decreases |tarefas|
  {
    if i < |tarefas| - 1 {
      MesesDeHasEveryTask(tarefas[..|tarefas| - 1], i);
    }
  }

  /** Newest month first, no month twice. */
  predicate Decrescente(s: seq<int>)
  {
    forall i, j :: 0 <= i < j < |s| ==> s[i] > s[j]
  }

  /** Puts k into a newest-first list at its place. */
  function InserirDecrescente(s: seq<int>, k: int): (r: seq<int>)
    requires Decrescente(s) && k !in s
    ensures Decrescente(r)
    ensures forall x :: x in r <==> x in s || x == k
    ensures |r| == |s| + 1
    decreases |s|
  {
    if s == [] then [k]
    else if k > s[0] then [k] + s
    else
      var rest := InserirDecrescente(s[1..], k);
      assert forall j :: 0 <= j < |rest| ==> rest[j] in rest && rest[j] < s[0];
      [s[0]] + rest
  }

  /** `meses.add(mes)`: a JavaScript `Set` keeps its elements in insertion
      order, without repeats. */
  function Adicionar(vistos: seq<int>, mes: Option<int>): (r: seq<int>)
    ensures forall x :: x in r <==> x in vistos || (mes.Some? && x == mes.value)
    ensures Distinct(vistos) ==> Distinct(r)
  {
    if mes.Some? && mes.value !in vistos then vistos + [mes.value] else vistos
  }

  /** The callback of the `forEach` of `mesesDisponiveis`: adds one task's
      creation, completion and due months to the set. */
  method AdicionarMesesDaTarefa(vistos: seq<int>, t: Task) returns (r: seq<int>)
    requires Distinct(vistos)
    ensures Distinct(r)
    ensures forall x :: x in r <==> x in vistos || x in MesesDaTarefa(t)
  {
    r := vistos;
    if t.createdAt.Some? {
      r := Adicionar(r, Some(MonthKeyOfInstant(t.createdAt.value)));
    }
    if t.concluidoEm.Some? {
      r := Adicionar(r, Some(MonthKeyOfInstant(t.concluidoEm.value)));
    }
    if t.prazoData.Some? {
      r := Adicionar(r, Some(MonthKeyOfDay(t.prazoData.value)));
    }
  }

  /** The `forEach` of `mesesDisponiveis`: the set of months, filled task by
      task in insertion order. */
  method ColetarMeses(tarefas: seq<Task>) returns (vistos: seq<int>)
    ensures Distinct(vistos)
    ensures forall x :: x in vistos <==> x in MesesDe(tarefas)
  {
    vistos := [];
    for i := 0 to |tarefas|
      invariant Distinct(vistos)
      invariant forall x :: x in vistos <==> x in MesesDe(tarefas[..i])
    {
      assert tarefas[..i + 1][..i] == tarefas[..i];
      assert MesesDe(tarefas[..i + 1]) == MesesDe(tarefas[..i]) + MesesDaTarefa(tarefas[i]);
      vistos := AdicionarMesesDaTarefa(vistos, tarefas[i]);
    }
    assert tarefas[..|tarefas|] == tarefas;
  }

  /** `Array.from(meses).sort().reverse()`: the months of the set, newest first. */
  method OrdenarDecrescente(vistos: seq<int>) returns (meses: seq<int>)
    requires Distinct(vistos)
    ensures Decrescente(meses)
    ensures forall x :: x in meses <==> x in vistos
  {
    meses := [];
    for j := 0 to |vistos|
      invariant Decrescente(meses)
      invariant forall x :: x in meses <==> x in vistos[..j]
    {
      assert vistos[..j + 1] == vistos[..j] + [vistos[j]];
      assert vistos[j] !in vistos[..j];
      meses := InserirDecrescente(meses, vistos[j]);
    }
    assert vistos[..|vistos|] == vistos;
  }

  /** `mesesDisponiveis`: every month of some task, newest first. */
  method MesesDisponiveis(tarefas: seq<Task>) returns (meses: seq<int>)
    ensures Decrescente(meses)
    ensures forall k :: k in meses <==> k in MesesDe(tarefas)
  {
    var vistos := ColetarMeses(tarefas);
    meses := OrdenarDecrescente(vistos);
  }

  /** A newest-first listing of a set of months is unique: the result above
      does not depend on the order in which the set is read. */
  lemma {:induction false} DecrescenteUnico(a: seq<int>, b: seq<int>)
    requires Decrescente(a) && Decrescente(b)
    requires forall x :: x in a <==> x in b
    ensures a == b
    decreases |a|
  {
    if a != [] {
      assert a[0] in a && a[0] in b;
    }
    if b != [] {
      assert b[0] in b && b[0] in a;
    }
    if a != [] && b != [] {
      assert a[0] in a && b[0] in b;
      assert a[0] == b[0];
      assert a == [a[0]] + a[1..];
      assert b == [b[0]] + b[1..];
      forall x ensures x in a[1..] <==> x in b[1..] {
        if x in a[1..] {
          var i :| 0 <= i < |a[1..]| && a[1..][i] == x;
          assert a[i + 1] == x && x < a[0] && x in b;
          var j :| 0 <= j < |b| && b[j] == x;
          assert j != 0 && b[1..][j - 1] == x;
        }
        if x in b[1..] {
          var i :| 0 <= i < |b[1..]| && b[1..][i] == x;
          assert b[i + 1] == x && x < b[0] && x in a;
          var j :| 0 <= j < |a| && a[j] == x;
          assert j != 0 && a[1..][j - 1] == x;
        }
      }
      DecrescenteUnico(a[1..], b[1..]);
    }
  }

  /** Every month the selector can pick that keeps some task is offered. */
  lemma OfferedMonthsCoverSelectable(tarefas: seq<Task>, resp: Option<string>, k: int, now: int)
    requires TarefasFiltradas(tarefas, Filtros(resp, Customizado, Mes(k)), now) != []
    ensures k in MesesDe(tarefas)
  {
    var f := Filtros(resp, Customizado, Mes(k));
    var r := TarefasFiltradas(tarefas, f, now);
    FiltradasIsSubsequence(tarefas, f, now);
    assert r[0] in tarefas && Mantem(r[0], f, now);
    var i :| 0 <= i < |tarefas| && tarefas[i] == r[0];
    MesesDeHasEveryTask(tarefas, i);
  }
}
