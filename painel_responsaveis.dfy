/** The admin panel's per-responsible breakdown (`dadosPorResponsavel`) and the
    list of responsibles offered by the filter (`responsaveisUnicos`). Both key
    tasks by `responsavel`, keep the first-seen order of the keys, and name each
    key after the first task that carries it. */
module PainelResponsaveis {
  import opened Tasks
  import opened Seqs
  import opened PainelStats
  import opened Deadline

  /** The responsible ids occurring in `ts`. */
  function Ids(ts: seq<Task>): set<string>
  {
    set i | 0 <= i < |ts| :: ts[i].responsavel
  }

  lemma IdsInit(ts: seq<Task>)
    requires ts != []
    ensures Ids(ts) == Ids(ts[..|ts| - 1]) + {ts[|ts| - 1].responsavel}
  {
    var init := ts[..|ts| - 1];
    forall id | id in Ids(ts) ensures id in Ids(init) + {ts[|ts| - 1].responsavel} {
      var i :| 0 <= i < |ts| && ts[i].responsavel == id;
      if i < |ts| - 1 {
        assert init[i] == ts[i];
      }
    }
    forall id | id in Ids(init) ensures id in Ids(ts) {
      var i :| 0 <= i < |init| && init[i].responsavel == id;
      assert ts[i] == init[i];
    }
  }

  /** The index of the first task of responsible `id`. */
  function PrimeiroIndice(ts: seq<Task>, id: string): (i: nat)
    requires id in Ids(ts)
    ensures i < |ts| && ts[i].responsavel == id
    ensures forall j :: 0 <= j < i ==> ts[j].responsavel != id
    decreases |ts|
  {
    var init := ts[..|ts| - 1];
    IdsInit(ts);
    if id in Ids(init) then
      var i := PrimeiroIndice(init, id);
      assert forall j :: 0 <= j <= i ==> ts[j] == init[j];
      i
    else
      assert forall j :: 0 <= j < |init| ==> ts[j] == init[j] && init[j].responsavel in Ids(init);
      |ts| - 1
  }

  /** The keys in the order they are first met. */
  function Ordem(ts: seq<Task>): seq<string>
    decreases |ts|
  {
    if ts == [] then []
    else
      var o := Ordem(ts[..|ts| - 1]);
      var r := ts[|ts| - 1].responsavel;
      if r in o then o else o + [r]
  }

  /** The keys hold each responsible of `ts` exactly once, ordered by first
      occurrence. */
  lemma {:induction false} OrdemSpec(ts: seq<Task>)
    ensures Distinct(Ordem(ts))
    ensures forall id :: id in Ordem(ts) <==> id in Ids(ts)
    ensures forall i, j :: 0 <= i < j < |Ordem(ts)| ==>
      PrimeiroIndice(ts, Ordem(ts)[i]) < PrimeiroIndice(ts, Ordem(ts)[j])
    decreases |ts|
  {
    if ts != [] {
      var init := ts[..|ts| - 1];
      OrdemSpec(init);
      IdsInit(ts);
      var o := Ordem(init);
      forall x | x in Ids(init) ensures PrimeiroIndice(ts, x) == PrimeiroIndice(init, x) {
        var k := PrimeiroIndice(init, x);
        assert ts[k] == init[k];
      }
      if ts[|ts| - 1].responsavel !in o {
        var r := ts[|ts| - 1].responsavel;
        assert PrimeiroIndice(ts, r) == |ts| - 1;
        forall i, j | 0 <= i < j < |o + [r]|
          ensures PrimeiroIndice(ts, (o + [r])[i]) < PrimeiroIndice(ts, (o + [r])[j])
        {
          assert (o + [r])[i] == o[i];
        }
      }
    }
  }

  /** `responsavel_nome || responsavel` of the first task of `id`. */
  function NomeDe(ts: seq<Task>, id: string): string
    decreases |ts|
  {
    if ts == [] then id
    else
      var init := ts[..|ts| - 1];
      if id in Ids(init) then NomeDe(init, id)
      else if ts[|ts| - 1].responsavel == id then DisplayName(ts[|ts| - 1])
      else id
  }

  lemma {:induction false} NomeDoPrimeiro(ts: seq<Task>, id: string)
    requires id in Ids(ts)
    ensures NomeDe(ts, id) == DisplayName(ts[PrimeiroIndice(ts, id)])
    decreases |ts|
  {
    var init := ts[..|ts| - 1];
    IdsInit(ts);
    if id in Ids(init) {
      NomeDoPrimeiro(init, id);
      assert ts[PrimeiroIndice(init, id)] == init[PrimeiroIndice(init, id)];
    }
  }

  /** The tasks of one responsible. */
  function TarefasDe(ts: seq<Task>, id: string): seq<Task>
  {
    Filter((t: Task) => t.responsavel == id, ts)
  }

  lemma TarefasDeInit(ts: seq<Task>, id: string)
    requires ts != []
    ensures TarefasDe(ts, id) ==
      TarefasDe(ts[..|ts| - 1], id) + (if ts[|ts| - 1].responsavel == id then [ts[|ts| - 1]] else [])
  {
    assert TarefasDe(ts, id) == Filter((t: Task) => t.responsavel == id, ts);
    assert TarefasDe(ts[..|ts| - 1], id) == Filter((t: Task) => t.responsavel == id, ts[..|ts| - 1]);
  }

  lemma TarefasDeAbsent(ts: seq<Task>, id: string)
    requires id !in Ids(ts)
    ensures TarefasDe(ts, id) == []
  {
    forall t | t in ts ensures t.responsavel != id {
      var i :| 0 <= i < |ts| && ts[i] == t;
      assert ts[i].responsavel in Ids(ts);
    }
    FilterNone((t: Task) => t.responsavel == id, ts);
  }

  /** One row of `dadosPorResponsavel`: the name and the counters of one responsible. */
  datatype Grupo = Grupo(nome: string, contagem: Contagem)

  function GrupoDe(ts: seq<Task>, id: string, now: int): Grupo
  {
    Grupo(NomeDe(ts, id), ContagemDe(TarefasDe(ts, id), now))
  }

  function GruposDe(ts: seq<Task>, ids: seq<string>, now: int): (gs: seq<Grupo>)
    ensures |gs| == |ids|
    decreases |ids|
  {
    if ids == [] then []
    else GruposDe(ts, ids[..|ids| - 1], now) + [GrupoDe(ts, ids[|ids| - 1], now)]
  }

  /** `Object.values(responsaveis)`: one row per responsible, in first-seen order. */
  function DadosPorResponsavel(ts: seq<Task>, now: int): (gs: seq<Grupo>)
    ensures |gs| == |Ordem(ts)|
  {
    GruposDe(ts, Ordem(ts), now)
  }

  /** Adding the next task to a responsible's row. */
  lemma GrupoDeInit(ts: seq<Task>, id: string, now: int)
    requires ts != []
    ensures var init, t := ts[..|ts| - 1], ts[|ts| - 1];
      GrupoDe(ts, id, now) ==
        if t.responsavel != id then GrupoDe(init, id, now)
        else if id in Ids(init) then GrupoDe(init, id, now).(contagem := Contar(GrupoDe(init, id, now).contagem, t, now))
        else Grupo(DisplayName(t), Contar(Nenhuma, t, now))
  {
    var init, t := ts[..|ts| - 1], ts[|ts| - 1];
    TarefasDeInit(ts, id);
    if t.responsavel == id {
      ContagemDeSnoc(TarefasDe(init, id), t, now);
      if id !in Ids(init) {
        TarefasDeAbsent(init, id);
      }
    }
  }

  lemma GruposDeElement(ts: seq<Task>, ids: seq<string>, now: int, i: int)
    requires 0 <= i < |ids|
    ensures GruposDe(ts, ids, now)[i] == GrupoDe(ts, ids[i], now)
    decreases |ids|
  {
    if i < |ids| - 1 {
      GruposDeElement(ts, ids[..|ids| - 1], now, i);
    }
  }

  /** The dictionary after the loop has seen `s`: one entry per responsible of
      `s`, holding that responsible's row. */
  ghost predicate Agrupado(m: map<string, Grupo>, s: seq<Task>, now: int)
  {
    && (forall id :: id in m <==> id in Ordem(s))
    && (forall id :: id in m ==> m[id] == GrupoDe(s, id, now))
  }

  /** One step of the grouping loop, on the list `u` seen so far: creating the
      entry of a new responsible and bumping the counters of the last task's
      responsible keeps the dictionary in step with the list. */
  lemma AgrupadoStep(m: map<string, Grupo>, m': map<string, Grupo>, u: seq<Task>, now: int)
    requires u != [] && Agrupado(m, u[..|u| - 1], now)
    requires forall id :: id in m' <==> id in m || id == u[|u| - 1].responsavel
    requires forall id :: id in m' && id != u[|u| - 1].responsavel ==> m'[id] == m[id]
    requires var t := u[|u| - 1];
      t.responsavel in m' && m'[t.responsavel] ==
        if t.responsavel in m then m[t.responsavel].(contagem := Contar(m[t.responsavel].contagem, t, now))
        else Grupo(DisplayName(t), Contar(Nenhuma, t, now))
    ensures Agrupado(m', u, now)
  {
    var s, t := u[..|u| - 1], u[|u| - 1];
    OrdemSpec(s);
    forall id ensures id in m' <==> id in Ordem(u) {
    }
    forall id | id in m' ensures m'[id] == GrupoDe(u, id, now) {
      GrupoDeInit(u, id, now);
      if id != t.responsavel {
        assert m'[id] == m[id] == GrupoDe(s, id, now);
      } else if id in m {
        assert id in Ids(s);
      } else {
        assert id !in Ids(s);
      }
    }
  }

  /** The `forEach` of `dadosPorResponsavel`: fills a dictionary keyed by
      `responsavel`, remembering the order in which the keys are created. */
  method Agrupar(ts: seq<Task>, now: int) returns (ordem: seq<string>, responsaveis: map<string, Grupo>)
    ensures ordem == Ordem(ts)
    ensures Agrupado(responsaveis, ts, now)
  {
    ordem := [];
    responsaveis := map[];
    for i := 0 to |ts|
      invariant ordem == Ordem(ts[..i])
      invariant Agrupado(responsaveis, ts[..i], now)
    {
      var tarefa := ts[i];
      assert ts[..i + 1][..i] == ts[..i];
      ghost var antes := responsaveis;
      if tarefa.responsavel !in responsaveis {
        responsaveis := responsaveis[tarefa.responsavel := Grupo(DisplayName(tarefa), Nenhuma)];
        ordem := ordem + [tarefa.responsavel];
      }
      var resp := responsaveis[tarefa.responsavel];
      responsaveis := responsaveis[tarefa.responsavel := resp.(contagem := Contar(resp.contagem, tarefa, now))];
      AgrupadoStep(antes, responsaveis, ts[..i + 1], now);
    }
    assert ts[..|ts|] == ts;
  }

  /** `Object.values`: the entries of the dictionary in the order of their keys. */
  method Valores(ordem: seq<string>, responsaveis: map<string, Grupo>) returns (grupos: seq<Grupo>)
    requires forall id :: id in ordem ==> id in responsaveis
    ensures |grupos| == |ordem|
    ensures forall k :: 0 <= k < |ordem| ==> grupos[k] == responsaveis[ordem[k]]
  {
    grupos := [];
    for j := 0 to |ordem|
      invariant |grupos| == j
      invariant forall k :: 0 <= k < j ==> grupos[k] == responsaveis[ordem[k]]
    {
      grupos := grupos + [responsaveis[ordem[j]]];
    }
  }

  /** `dadosPorResponsavel`: the dictionary's values in insertion order. */
  method CalcularDadosPorResponsavel(ts: seq<Task>, now: int) returns (grupos: seq<Grupo>)
    ensures grupos == DadosPorResponsavel(ts, now)
  {
    var ordem, responsaveis := Agrupar(ts, now);
    grupos := Valores(ordem, responsaveis);
    forall k | 0 <= k < |ordem| ensures grupos[k] == GruposDe(ts, ordem, now)[k] {
      GruposDeElement(ts, ordem, now, k);
    }
  }

  /** The counters of a list of rows, added up. */
  function SomaGrupos(gs: seq<Grupo>): Contagem
    decreases |gs|
  {
    if gs == [] then Nenhuma
    else Somar(SomaGrupos(gs[..|gs| - 1]), gs[|gs| - 1].contagem)
  }

  /** The counters of the responsibles `ids`, added up. */
  function SomaPorId(ts: seq<Task>, ids: seq<string>, now: int): Contagem
    decreases |ids|
  {
    if ids == [] then Nenhuma
    else Somar(SomaPorId(ts, ids[..|ids| - 1], now), ContagemDe(TarefasDe(ts, ids[|ids| - 1]), now))
  }

  lemma {:induction false} SomaGruposPorId(ts: seq<Task>, ids: seq<string>, now: int)
    ensures SomaGrupos(GruposDe(ts, ids, now)) == SomaPorId(ts, ids, now)
    decreases |ids|
  {
    if ids != [] {
      var pre := ids[..|ids| - 1];
      SomaGruposPorId(ts, pre, now);
      var gs := GruposDe(ts, ids, now);
      assert gs[..|gs| - 1] == GruposDe(ts, pre, now);
    }
  }

  /** The counters of one responsible after one more task. */
  lemma ContagemPorIdInit(ts: seq<Task>, id: string, now: int)
    requires ts != []
    ensures var init, t := ts[..|ts| - 1], ts[|ts| - 1];
      ContagemDe(TarefasDe(ts, id), now) ==
        if t.responsavel == id then Contar(ContagemDe(TarefasDe(init, id), now), t, now)
        else ContagemDe(TarefasDe(init, id), now)
  {
    TarefasDeInit(ts, id);
    if ts[|ts| - 1].responsavel == id {
      ContagemDeSnoc(TarefasDe(ts[..|ts| - 1], id), ts[|ts| - 1], now);
    }
  }

  /** One more task adds its unit to the sum over `ids` exactly when its
      responsible is one of them (once, since `ids` are distinct). */
  lemma {:induction false} SomaPorIdInit(ts: seq<Task>, ids: seq<string>, now: int)
    requires ts != [] && Distinct(ids)
    ensures var init, t := ts[..|ts| - 1], ts[|ts| - 1];
      SomaPorId(ts, ids, now) ==
        if t.responsavel in ids then Somar(SomaPorId(init, ids, now), Unidade(t, now))
        else SomaPorId(init, ids, now)
    decreases |ids|
  {
    if ids != [] {
      var init, t := ts[..|ts| - 1], ts[|ts| - 1];
      var pre, x := ids[..|ids| - 1], ids[|ids| - 1];
      assert Distinct(pre);
      assert ids == pre + [x];
      SomaPorIdInit(ts, pre, now);
      ContagemPorIdInit(ts, x, now);
      var a, b, u := SomaPorId(init, pre, now), ContagemDe(TarefasDe(init, x), now), Unidade(t, now);
      assert SomaPorId(init, ids, now) == Somar(a, b);
      if t.responsavel == x {
        assert x !in pre;
        assert SomaPorId(ts, ids, now) == Somar(a, Somar(b, u));
        SomarAC(a, b, u);
      } else if t.responsavel in pre {
        assert SomaPorId(ts, ids, now) == Somar(Somar(a, u), b);
        SomarAC(a, b, u);
      }
    }
  }

  lemma {:induction false} SomaPorIdOrdem(ts: seq<Task>, now: int)
    ensures SomaPorId(ts, Ordem(ts), now) == ContagemDe(ts, now)
    decreases |ts|
  {
    if ts != [] {
      var init, t := ts[..|ts| - 1], ts[|ts| - 1];
      var o := Ordem(init);
      SomaPorIdOrdem(init, now);
      OrdemSpec(init);
      IdsInit(ts);
      SomaPorIdInit(ts, o, now);
      var u := Unidade(t, now);
      assert ContagemDe(ts, now) == Somar(ContagemDe(init, now), u);
      if t.responsavel in o {
        assert Ordem(ts) == o;
        assert SomaPorId(ts, o, now) == Somar(SomaPorId(init, o, now), u);
      } else {
        var r := t.responsavel;
        assert Ordem(ts) == o + [r];
        var ids := o + [r];
        assert ids[..|ids| - 1] == o && ids[|ids| - 1] == r;
        assert SomaPorId(ts, ids, now) == Somar(SomaPorId(ts, o, now), ContagemDe(TarefasDe(ts, r), now));
        assert SomaPorId(ts, o, now) == SomaPorId(init, o, now);
        ContagemPorIdInit(ts, r, now);
        TarefasDeAbsent(init, r);
        assert ContagemDe(TarefasDe(ts, r), now) == Somar(Nenhuma, u);
        SomarAC(u, Nenhuma, Nenhuma);
      }
    }
  }

  /** The rows add up to the panel's summary counters: every task of the
      filtered list is counted in exactly one row, in the same bucket. */
  lemma GruposSomamStats(ts: seq<Task>, now: int)
    ensures SomaGrupos(DadosPorResponsavel(ts, now)) == ContagemDe(ts, now)
  {
    SomaGruposPorId(ts, Ordem(ts), now);
    SomaPorIdOrdem(ts, now);
  }

  /** The rows: one per responsible, in first-seen order, each named after the
      first task of its responsible and counting exactly that responsible's tasks. */
  lemma DadosPorResponsavelRows(ts: seq<Task>, now: int)
    ensures var gs, o := DadosPorResponsavel(ts, now), Ordem(ts);
      && |gs| == |o|
      && Distinct(o)
      && (forall id :: id in o <==> id in Ids(ts))
      && (forall i :: 0 <= i < |gs| ==>
            gs[i].nome == DisplayName(ts[PrimeiroIndice(ts, o[i])])
            && gs[i].contagem == ContagemDe(TarefasDe(ts, o[i]), now))
  {
    OrdemSpec(ts);
    var o := Ordem(ts);
    forall i | 0 <= i < |o|
      ensures DadosPorResponsavel(ts, now)[i].nome == DisplayName(ts[PrimeiroIndice(ts, o[i])])
      ensures DadosPorResponsavel(ts, now)[i].contagem == ContagemDe(TarefasDe(ts, o[i]), now)
    {
      GruposDeElement(ts, o, now, i);
      NomeDoPrimeiro(ts, o[i]);
    }
  }

  /** `responsaveisUnicos` before its sort: the pairs (id, name) in first-seen
      order, each name taken from the first task of that id. */
  method ResponsaveisUnicos(ts: seq<Task>) returns (pares: seq<(string, string)>)
    ensures |pares| == |Ordem(ts)|
    ensures forall i :: 0 <= i < |pares| ==>
      pares[i].0 == Ordem(ts)[i] && pares[i].1 == NomeDe(ts, Ordem(ts)[i])
  {
    var ordem: seq<string> := [];
    var nomes: map<string, string> := map[];
    for i := 0 to |ts|
      invariant ordem == Ordem(ts[..i])
      invariant forall id :: id in nomes <==> id in Ids(ts[..i])
      invariant forall id :: id in nomes ==> nomes[id] == NomeDe(ts[..i], id)
    {
      var t := ts[i];
      assert ts[..i + 1][..i] == ts[..i];
      OrdemSpec(ts[..i]);
      IdsInit(ts[..i + 1]);
      if t.responsavel !in nomes {
        nomes := nomes[t.responsavel := DisplayName(t)];
        ordem := ordem + [t.responsavel];
      }
    }
    assert ts[..|ts|] == ts;
    OrdemSpec(ts);
    pares := [];
    for j := 0 to |ordem|
      invariant |pares| == j
      invariant forall i :: 0 <= i < j ==> pares[i] == (ordem[i], NomeDe(ts, ordem[i]))
    {
      pares := pares + [(ordem[j], nomes[ordem[j]])];
    }
  }

  /** Two tasks of one responsible make one key, named after the first task,
      holding both tasks. */
  lemma MesmoResponsavel(a: Task, b: Task)
    requires a.responsavel == b.responsavel
    ensures Ordem([a, b]) == [a.responsavel]
    ensures NomeDe([a, b], a.responsavel) == DisplayName(a)
    ensures TarefasDe([a, b], a.responsavel) == [a, b]
  {
    var ts, id := [a, b], a.responsavel;
    assert ts[..1] == [a] && [a][..0] == [];
    assert Ordem([a]) == [id];
    assert id in Ids([a]) && Ids([]) == {};
    TarefasDeInit(ts, id);
    TarefasDeInit([a], id);
  }

  /** Example: a completed-on-time task and an overdue active task of the same
      responsible make one row, named after the first of them, that counts two
      tasks, one completed, one active, one on time and one late. */
  lemma OneOnTimeOneLateOneRow(done: Task, late: Task, now: int)
    requires IsConcluido(done) && done.prazoData.Some? && done.concluidoEm.Some? && CompletedOnTime(done)
    requires IsAtiva(late) && late.prazoData.Some? && IsLate(late, now)
    requires done.responsavel == late.responsavel
    ensures DadosPorResponsavel([done, late], now) == [Grupo(DisplayName(done), Contagem(2, 1, 1, 1, 1))]
  {
    var ts, id := [done, late], done.responsavel;
    MesmoResponsavel(done, late);
    OneOnTimeOneLate(done, late, now);
    assert GruposDe(ts, [id], now) == GruposDe(ts, [], now) + [GrupoDe(ts, id, now)];
  }
}
