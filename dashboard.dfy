/** The dashboard's split of the loaded tasks into the active and archived tabs. */
module Dashboard {
  import opened Tasks
  import opened Seqs

  /** `tarefas.filter(t => t.status !== 'concluido')`. */
  function TarefasAtivas(tarefas: seq<Task>): (r: seq<Task>)
    ensures |r| <= |tarefas|
    ensures forall i :: 0 <= i < |r| ==> r[i] in tarefas && r[i].status != Concluido
  {
    Filter(IsAtiva, tarefas)
  }

  /** `tarefas.filter(t => t.status === 'concluido')`. */
  function TarefasArquivadas(tarefas: seq<Task>): (r: seq<Task>)
    ensures |r| <= |tarefas|
    ensures forall i :: 0 <= i < |r| ==> r[i] in tarefas && r[i].status == Concluido
  {
    Filter(IsConcluido, tarefas)
  }

  /** The tab badges: the two list lengths. */
  function Badges(tarefas: seq<Task>): (r: (nat, nat))
    ensures r.0 + r.1 == |tarefas|
  {
    FilterPartition(IsAtiva, IsConcluido, tarefas);
    (|TarefasAtivas(tarefas)|, |TarefasArquivadas(tarefas)|)
  }

  /** `created_at` descending, the order the tasks are loaded in. */
  predicate NewerFirst(a: Task, b: Task)
  {
    a.createdAt.Some? && b.createdAt.Some? && a.createdAt.value >= b.createdAt.value
  }

  /** The active list holds exactly the tasks whose status is not "concluido",
      the archived list exactly the others, and every task lands in one of them. */
  lemma PartitionExact(tarefas: seq<Task>)
    ensures forall t :: t in TarefasAtivas(tarefas) <==> t in tarefas && t.status != Concluido
    ensures forall t :: t in TarefasArquivadas(tarefas) <==> t in tarefas && t.status == Concluido
    ensures multiset(TarefasAtivas(tarefas)) + multiset(TarefasArquivadas(tarefas)) == multiset(tarefas)
    ensures Badges(tarefas).0 + Badges(tarefas).1 == |tarefas|
  {
    FilterPartition(IsAtiva, IsConcluido, tarefas);
    forall t | t in tarefas && t.status != Concluido ensures t in TarefasAtivas(tarefas) {
      var i :| 0 <= i < |tarefas| && tarefas[i] == t;
    }
    forall t | t in tarefas && t.status == Concluido ensures t in TarefasArquivadas(tarefas) {
      var i :| 0 <= i < |tarefas| && tarefas[i] == t;
    }
    forall t | t in TarefasAtivas(tarefas) ensures t in tarefas && t.status != Concluido {
      var a := TarefasAtivas(tarefas);
      var i :| 0 <= i < |a| && a[i] == t;
    }
    forall t | t in TarefasArquivadas(tarefas) ensures t in tarefas && t.status == Concluido {
      var a := TarefasArquivadas(tarefas);
      var i :| 0 <= i < |a| && a[i] == t;
    }
  }

  /** Both lists keep the loaded order: each is a subsequence of the input,
      and newest-first input stays newest-first. */
  lemma PartitionKeepsOrder(tarefas: seq<Task>)
    ensures IsSubsequence(TarefasAtivas(tarefas), tarefas)
    ensures IsSubsequence(TarefasArquivadas(tarefas), tarefas)
    ensures Pairwise(NewerFirst, tarefas) ==>
      Pairwise(NewerFirst, TarefasAtivas(tarefas)) && Pairwise(NewerFirst, TarefasArquivadas(tarefas))
  {
    FilterIsSubsequence(IsAtiva, tarefas);
    FilterIsSubsequence(IsConcluido, tarefas);
    if Pairwise(NewerFirst, tarefas) {
      FilterKeepsOrder(NewerFirst, IsAtiva, tarefas);
      FilterKeepsOrder(NewerFirst, IsConcluido, tarefas);
    }
  }
}
