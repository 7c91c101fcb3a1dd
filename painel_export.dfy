/** The admin panel's spreadsheet export: the detailed status label of a task
    (`calcularStatusDetalhado`), the rows of the "Tarefas" sheet and the
    "% No Prazo" column of the "Desempenho" sheet. Workbook writing and date
    formatting are not modelled: dates and times are kept as values, and an
    absent one is what the sheet shows as "-". */
module PainelExport {
  import opened Wrappers
  import opened Tasks
  import opened Deadline
  import opened PainelStats
  import opened PainelResponsaveis

  const RotuloConcluida: string := "Concluída"
  const RotuloNoPrazo: string := "Concluída no prazo"
  const RotuloAtrasoJustificado: string := "Concluída com atraso justificado"
  const RotuloAtraso: string := "Concluída com atraso"

  /** `calcularStatusDetalhado`. */
  function StatusDetalhado(t: Task): (s: string)
    ensures IsAtiva(t) ==> s == t.status
    ensures IsConcluido(t) ==> s in {RotuloConcluida, RotuloNoPrazo, RotuloAtrasoJustificado, RotuloAtraso}
  {
    if !IsConcluido(t) then t.status
    else if t.prazoData.None? || t.concluidoEm.None? then RotuloConcluida
    else if t.concluidoEm.value <= DueInstant(t.prazoData.value, t.prazoHora, EndOfDayCompleted) then RotuloNoPrazo
    else if t.justificativa != "" then
      (if t.justificativa == NotLateSentinel then RotuloNoPrazo else RotuloAtrasoJustificado)
    else RotuloAtraso
  }

  /** The label of a completed task names the bucket the summary counters put
      it in: "no prazo" exactly for on-time, one of the two "atraso" labels
      exactly for late (the justified one exactly when a justification other
      than the sentinel was given), and the bare label for the uncounted. */
  lemma StatusDetalhadoMatchesBucket(t: Task, now: int)
    requires IsConcluido(t)
    ensures StatusDetalhado(t) == RotuloConcluida <==> BucketOf(t, now) == Uncounted
    ensures StatusDetalhado(t) == RotuloNoPrazo <==> BucketOf(t, now) == OnTime
    ensures StatusDetalhado(t) in {RotuloAtrasoJustificado, RotuloAtraso} <==> BucketOf(t, now) == Late
    ensures StatusDetalhado(t) == RotuloAtrasoJustificado <==>
      BucketOf(t, now) == Late && t.justificativa != ""
  {
  }

  /** An active task's label is its raw status, so it never reads as completed. */
  lemma StatusDetalhadoOfActive(t: Task)
    requires IsAtiva(t)
    ensures StatusDetalhado(t) == t.status
    ensures StatusDetalhado(t) != Concluido
  {
  }

  /** The "Prioridade" column. */
  function PrioridadeLabel(priority: string): (r: string)
    ensures r == "Alta" <==> priority == "high"
    ensures r == "Média" <==> priority == "medium"
    ensures r == "Baixa" <==> priority != "high" && priority != "medium"
  {
    if priority == "high" then "Alta" else if priority == "medium" then "Média" else "Baixa"
  }

  /** One row of the "Tarefas" sheet. */
  datatype LinhaTarefa = LinhaTarefa(
    descricao: string, responsavel: string,
    dataPrazo: Option<int>, horaPrazo: Option<TimeOfDay>,
    prioridade: string, status: string,
    criadaEm: Option<int>, concluidaEm: Option<int>,
    justificativa: string)

  /** The `tarefas.map` of `exportarExcel`. */
  function Linha(t: Task): (l: LinhaTarefa)
    ensures l.justificativa != ""
    ensures t.justificativa != "" ==> l.justificativa == t.justificativa
    ensures l.status == StatusDetalhado(t) && l.responsavel == DisplayName(t)
  {
    LinhaTarefa(t.descricao, DisplayName(t), t.prazoData, t.prazoHora,
      PrioridadeLabel(t.priority), StatusDetalhado(t),
      t.createdAt, t.concluidoEm,
      if t.justificativa != "" then t.justificativa else "-")
  }

  /** The "Tarefas" sheet lists every loaded task, filtered or not, in order. */
  function ExportarTarefas(tarefas: seq<Task>): (linhas: seq<LinhaTarefa>)
    ensures |linhas| == |tarefas|
    ensures forall i :: 0 <= i < |linhas| ==> linhas[i] == Linha(tarefas[i])
  {
    seq(|tarefas|, i requires 0 <= i < |tarefas| => Linha(tarefas[i]))
  }

  /** The "Justificativa" column shows "-" exactly when there is none (or when
      the justification itself is "-"). */
  lemma JustificativaColumn(t: Task)
    ensures Linha(t).justificativa == "-" <==> t.justificativa == "" || t.justificativa == "-"
    ensures t.justificativa != "" ==> Linha(t).justificativa == t.justificativa
  {
  }

  /** One row of the "Desempenho" sheet. */
  datatype LinhaDesempenho = LinhaDesempenho(
    responsavel: string, total: nat, concluidas: nat, ativas: nat,
    noPrazo: nat, atrasadas: nat, percentualNoPrazo: real)

  /** `dadosPorResponsavel.map`: the "% No Prazo" column is the on-time share of
      the row's total, and "0%" for an empty row. */
  function Desempenho(g: Grupo): (l: LinhaDesempenho)
    ensures g.contagem.total == 0 ==> l.percentualNoPrazo == 0.0
    ensures g.contagem.noPrazo <= g.contagem.total ==> 0.0 <= l.percentualNoPrazo <= 100.0
  {
    var c := g.contagem;
    LinhaDesempenho(g.nome, c.total, c.concluidas, c.ativas, c.noPrazo, c.atrasadas,
      if c.total > 0 then Percentual(c.noPrazo, c.total) else 0.0)
  }

  function ExportarDesempenho(grupos: seq<Grupo>): (linhas: seq<LinhaDesempenho>)
    ensures |linhas| == |grupos|
    ensures forall i :: 0 <= i < |linhas| ==> linhas[i] == Desempenho(grupos[i])
  {
    seq(|grupos|, i requires 0 <= i < |grupos| => Desempenho(grupos[i]))
  }

  /** Each performance row of the filtered list: completed plus active is its
      total, its buckets fit in it, and its "% No Prazo" lies in [0, 100],
      reaching 100 exactly when every task of the row is on time. */
  lemma DesempenhoSpec(ts: seq<Task>, now: int)
    ensures var linhas := ExportarDesempenho(DadosPorResponsavel(ts, now));
      forall i :: 0 <= i < |linhas| ==>
        && linhas[i].concluidas + linhas[i].ativas == linhas[i].total
        && linhas[i].noPrazo + linhas[i].atrasadas <= linhas[i].total
        && 0.0 <= linhas[i].percentualNoPrazo <= 100.0
        && (linhas[i].total > 0 ==>
              (linhas[i].percentualNoPrazo == 100.0 <==> linhas[i].noPrazo == linhas[i].total))
  {
    var gs := DadosPorResponsavel(ts, now);
    var linhas := ExportarDesempenho(gs);
    DadosPorResponsavelRows(ts, now);
    forall i | 0 <= i < |linhas|
      ensures linhas[i].concluidas + linhas[i].ativas == linhas[i].total
      ensures linhas[i].noPrazo + linhas[i].atrasadas <= linhas[i].total
      ensures linhas[i].total > 0 ==>
        (linhas[i].percentualNoPrazo == 100.0 <==> linhas[i].noPrazo == linhas[i].total)
    {
      var c := gs[i].contagem;
      assert c == ContagemDe(TarefasDe(ts, Ordem(ts)[i]), now);
      if c.total > 0 {
        PercentualCheio(c.noPrazo, c.total);
      }
    }
  }

  /** The "Indicadores" sheet: the five summary counters, the two buckets
      followed by their percentages. */
  datatype Indicadores = Indicadores(
    total: nat, concluidas: nat, ativas: nat,
    noPrazo: nat, percentualNoPrazo: real, atrasadas: nat, percentualAtrasadas: real)

  function IndicadoresDe(s: Stats): Indicadores
  {
    Indicadores(s.total, s.concluidas, s.ativas, s.noPrazo, s.percentualNoPrazo,
                s.atrasadas, s.percentualAtrasadas)
  }

  /** The indicator sheet and the performance sheet agree: the rows' counters
      add up to the indicators. */
  lemma IndicadoresAgreeWithDesempenho(ts: seq<Task>, now: int)
    ensures var ind := IndicadoresDe(StatsDe(ts, now));
      var soma := SomaGrupos(DadosPorResponsavel(ts, now));
      && ind.total == soma.total && ind.concluidas == soma.concluidas && ind.ativas == soma.ativas
      && ind.noPrazo == soma.noPrazo && ind.atrasadas == soma.atrasadas
  {
    GruposSomamStats(ts, now);
  }
}
