# gerenciador-tarefas: deadline rules and admin reporting, in Dafny

This project models the logic of a small task tracker's web views. Tasks have
a due date, an optional due time, a status ("concluido" or an active status),
a completion instant and a justification. The model covers:

- **Lateness rules.** `Deadline` holds the active-task rule `calcularAtraso`,
  which is written out the same way in three views. It also holds the
  completed-task rule that the admin panel repeats in four places, with the
  "Usuário informou que não estava atrasada" sentinel. `Deadline.BucketOf` is
  the branch each task takes in the panel's counters.
- **Admin panel (`PainelAdmin`).**
  - the three filters and `tarefasFiltradas` (`PainelFiltros`), including the
    two handlers that keep the period and month selectors consistent;
  - the summary counters `stats` (`PainelStats`);
  - the per-responsible table `dadosPorResponsavel` and `responsaveisUnicos`
    (`PainelResponsaveis`);
  - the twelve-month chart `dadosEvolucao` with `formatarMes`
    (`PainelEvolucao`);
  - the month selector's options `mesesDisponiveis` (`PainelMeses`);
  - the spreadsheet rows of `exportarExcel` with `calcularStatusDetalhado`
    (`PainelExport`).
- **Completion dialog.** `handleConcluir` of `ModalConcluir`: its guard, the
  payload it stores, and how the admin panel then counts the stored task.
- **Active task list.** `formatarPrazo` and the buttons a card offers
  (`TarefasAtivas`).
- **Dashboard.** The split into the active and archived tabs (`Dashboard`).
- **Change-password dialog.** The checks `ModalTrocarSenha` runs before it
  calls the authentication provider: the form's own `required` and
  `minLength` constraints, then those of `handleSubmit`.

How the model represents the source's values:

- **Time.** An instant is an integer number of milliseconds on one local
  timeline. A day is `instant / 86_400_000`, rounded down. Calendar dates are
  day numbers: `Calendar` walks the Gregorian calendar and proves that
  `DateOfDay` and `DayNumber` are inverse, in both directions. A month is the key
  `year * 12 + month - 1`.
- **Current time.** The current instant is a parameter wherever the source
  reads the clock.
- **Percentages** are exact rationals.
- **JavaScript `Set` and `Map`.** Where the source relies on insertion order,
  they are sequences without repeats in insertion order.

Stateful parts are classes whose methods update their fields: the panel's
filter state, the completion dialog's form and the password dialog's form.
Every loop of the source is a method proved equal to the function that
specifies it: the `stats` loop, the grouping loop, the chart loop and its
inner count, and the month-set loop with its sort. The properties are proved
about those functions.

Three behaviours of the code are easy to miss:

- **Justified late completions.** The panel's counters (`stats`,
  `dadosPorResponsavel`) count a late completion that carries a typed
  justification as **late**, not on time. Only the sentinel justification
  counts as on time (`ModalConcluir.TypedJustificationCountedLate`).
- **Completing on the due day.** The dialog decides lateness with the
  same-day grace rule of `calcularAtraso`. The panel compares the completion
  instant with the due instant. So a task completed on its due day, after its
  due time, needs no justification in the dialog but is counted late by the
  panel (`ModalConcluir.SameDayAfterDueTimeCountedLate`).
- **Due-day end.** An active task's due day ends at 23:59:59.000. A completed
  task's due day ends at 23:59:59.999. Both constants are kept.

## Model

| member | source | states |
|---|---|---|
| `Calendar.DayNumberOfDateOfDay` | src/components/PainelAdmin.jsx:77-79 | reading a day number as a calendar date and back gives the same day |
| `Calendar.DateOfDayNumber` | src/components/PainelAdmin.jsx:77-79 | reading a valid calendar date as a day number and back gives the same date |
| `Calendar.OnOrAfterFirstOfMonth` | src/components/PainelAdmin.jsx:112-139 | a day is on or after the first of month k exactly when its month is k or later |
| `Deadline.DueInstant` | src/components/TarefasAtivas.jsx:15-22 | the due instant (the due day at `prazo_hora`, or at the end-of-day default) is never before the start of the due day, and with a real time of day and a default below one day it is before the next day |
| `Deadline.IsLate` | src/components/TarefasAtivas.jsx:12-25 | `calcularAtraso`: a late task always has a due date strictly before today, whatever its due time |
| `Deadline.CompletedOnTime` | src/components/PainelAdmin.jsx:182-191 | a completion on a day before the due day is on time; one on a day after it, with a real due time, is on time exactly when it carries the sentinel |
| `Deadline.BucketOf` | src/components/PainelAdmin.jsx:175-209 | a task is counted nowhere exactly when it is active without a due date or completed without a due date or completion instant; an active task is late exactly when `IsLate` holds; a completed one is on time exactly under `CompletedOnTime` |
| `Deadline.DueInstantInDueDay` | src/components/TarefasAtivas.jsx:15-22 | a due instant built from a real time of day, or from the end-of-day default, lies inside the due day |
| `Deadline.LateIffDueDayBeforeToday` | src/components/TarefasAtivas.jsx:12-25 | `isPast && !isToday` holds exactly when the task has a due date and that date is strictly before today; a task without a due date is never late |
| `Deadline.LatenessIgnoresDueTime` | src/components/ModalConcluir.jsx:10-23 | changing the due time never changes whether an active task is late (the same-day grace swallows it) |
| `Deadline.BucketByDates` | src/components/PainelAdmin.jsx:175-209 | a task is uncounted exactly when it is active without a due date, or completed without a due date or a completion instant; an active task with a due date is late exactly when that date is before today; a completed task is on time exactly when it finished by the due instant or carries the sentinel |
| `Deadline.EndOfDueDayBoundary` | src/components/PainelAdmin.jsx:182-191 | a completed task without a due time is on time at 23:59:59.999 of its due day and late one second into the next day |
| `ModalConcluir.Concluir` | src/components/ModalConcluir.jsx:28-45 | `handleConcluir`'s guard and payload: a refusal carries the alert and only happens to a late task; an accepted update marks the task "concluido" at the click instant and stores, if anything, the typed text or the sentinel |
| `ModalConcluir.Aplicar` | src/components/ModalConcluir.jsx:36-45 | the update replaces the status and completion instant, replaces the justification only when it writes one, and leaves every other column as it was |
| `ModalConcluir.RefusedIff` | src/components/ModalConcluir.jsx:28-31 | completion is refused exactly for a late task with no justification and the box unchecked; a task that is not late is always accepted |
| `ModalConcluir.AcceptedPayload` | src/components/ModalConcluir.jsx:36-45 | an accepted completion stores status "concluido" at the click instant; the typed text is stored when the task is late and has one, otherwise the sentinel when the box is checked, otherwise no justification; an empty justification is never written |
| `ModalConcluir.CheckboxCountsOnTime` | src/components/ModalConcluir.jsx:43-44 | completing with the box checked and no text makes the stored task count as on time in the admin panel, whatever its dates |
| `ModalConcluir.TypedJustificationCountedLate` | src/components/ModalConcluir.jsx:41-42 | a late task completed with typed text, box or not, is stored with that text and counted late by the panel |
| `ModalConcluir.SameDayAfterDueTimeCountedLate` | src/components/ModalConcluir.jsx:22-45 | on the due day after the due time the dialog sees no lateness and stores no justification, yet the panel counts the task late |
| `ModalConcluir.ConcluirForm.constructor` | src/components/ModalConcluir.jsx:6-8 | the dialog opens with an empty justification, the box unchecked and not busy |
| `ModalConcluir.ConcluirForm.SetJustificativa` | src/components/ModalConcluir.jsx:103 | typing replaces the justification and nothing else |
| `ModalConcluir.ConcluirForm.SetNaoEstaAtrasada` | src/components/ModalConcluir.jsx:116 | the box sets its flag and nothing else |
| `ModalConcluir.ConcluirForm.HandleConcluir` | src/components/ModalConcluir.jsx:27-60 | the result is the guard-and-payload function on the lateness computed when the dialog was drawn and the current fields; the fields are unchanged; `loading` is untouched on refusal and false after an update |
| `ModalTrocarSenha.Validar` | src/components/ModalTrocarSenha.jsx:18-26 | valid exactly when the new password has at least 6 characters and equals the confirmation; too short exactly when under 6; mismatch exactly when long enough and different |
| `ModalTrocarSenha.FormularioValido` | src/components/ModalTrocarSenha.jsx:58-93 | the browser's constraint validation: the three inputs are non-empty and the new password has at least 6 characters; no contract of its own, its properties are the next two rows |
| `ModalTrocarSenha.LengthBranchOnlyWhenBypassed` | src/components/ModalTrocarSenha.jsx:18-21 | through the form the length check never fails: its message is reached only when the constraints are bypassed |
| `ModalTrocarSenha.DialogSendsIff` | src/components/ModalTrocarSenha.jsx:13-93 | the dialog sends the password exactly when the current password is filled in, the new one has at least 6 characters and the confirmation repeats it |
| `ModalTrocarSenha.LengthCheckedFirst` | src/components/ModalTrocarSenha.jsx:18-21 | a short password reports the length message even when the confirmation differs too |
| `ModalTrocarSenha.TrocarSenhaForm.constructor` | src/components/ModalTrocarSenha.jsx:5-11 | the dialog opens with three empty fields, no error and not busy |
| `ModalTrocarSenha.TrocarSenhaForm.SetCampos` | src/components/ModalTrocarSenha.jsx:62-92 | editing the fields replaces them and leaves the error and busy flag alone |
| `ModalTrocarSenha.TrocarSenhaForm.HandleSubmit` | src/components/ModalTrocarSenha.jsx:13-45 | once `handleSubmit` runs, the new password reaches the provider exactly when it passes both of its checks; the error line is the failed check's message, else the provider's error, else empty; the fields are unchanged |
| `ModalTrocarSenha.TrocarSenhaForm.Submeter` | src/components/ModalTrocarSenha.jsx:54-93 | a submission the form's constraints refuse changes nothing and sends nothing; otherwise it is `handleSubmit`: the password is sent exactly when the form is valid and both checks pass |
| `TarefasAtivas.FormatarPrazo` | src/components/TarefasAtivas.jsx:27-34 | `formatarPrazo` ("Sem prazo", or "dd/MM/yyyy às HH:MM" with "fim do dia" for a missing time); no contract of its own, its two properties are the next two rows |
| `TarefasAtivas.SemPrazoIffNoDueDate` | src/components/TarefasAtivas.jsx:27-28 | "Sem prazo" is shown exactly for tasks without a due date |
| `TarefasAtivas.FimDoDiaIffNoDueTime` | src/components/TarefasAtivas.jsx:30-33 | for a task with a due date, the text ends in "fim do dia" exactly when it has no due time |
| `TarefasAtivas.AcoesPermitidas` | src/components/TarefasAtivas.jsx:109-132 | "Concluir" is offered exactly to the task's responsible and to admins; "Editar" and "Excluir" exactly to admins |
| `Dashboard.TarefasAtivas` | src/components/Dashboard.jsx:33 | the active tab is no longer than the loaded list and holds only loaded tasks whose status is not "concluido" |
| `Dashboard.TarefasArquivadas` | src/components/Dashboard.jsx:34 | the archived tab is no longer than the loaded list and holds only loaded tasks whose status is "concluido" |
| `Dashboard.Badges` | src/components/Dashboard.jsx:72-82 | the two tab badges add up to the number of loaded tasks |
| `Dashboard.PartitionExact` | src/components/Dashboard.jsx:33-34 | the active tab holds exactly the tasks whose status is not "concluido", the archived tab exactly the others; together they are the loaded list as a multiset, and the two badges add up to its length |
| `Dashboard.PartitionKeepsOrder` | src/components/Dashboard.jsx:18-34 | both tabs are subsequences of the loaded list, and newest-first input stays newest-first in each |
| `PainelFiltros.NaJanela` | src/components/PainelAdmin.jsx:67-153 | the date test of the chosen month, or else of the named period, on a day; no contract of its own, its properties are `UltimosIsMonthWindow` and `MesAnoOverridesPeriodo` |
| `PainelFiltros.Mantem` | src/components/PainelAdmin.jsx:63-153 | whether one task passes the responsible test and the date test on its completion or due day; no contract of its own, its properties are `DateTestUsesTheRightDate` and `NoFilterKeepsAll` |
| `PainelFiltros.TarefasFiltradas` | src/components/PainelAdmin.jsx:62-156 | the filtered list is no longer than the task list and holds only tasks of that list that pass `Mantem` |
| `PainelFiltros.FiltradasIsSubsequence` | src/components/PainelAdmin.jsx:62-156 | the filtered list is a subsequence of the task list and holds exactly the tasks that pass the responsible and date tests |
| `PainelFiltros.MesAnoOverridesPeriodo` | src/components/PainelAdmin.jsx:68-83 | with a month chosen, the period setting has no effect on the filtered list |
| `PainelFiltros.DateTestUsesTheRightDate` | src/components/PainelAdmin.jsx:84-153 | under a date test, completed tasks are tested by completion day and active tasks by due day, and a task lacking that date is dropped |
| `PainelFiltros.NoFilterKeepsAll` | src/components/PainelAdmin.jsx:62-66 | with no responsible and no month or named period chosen, the filtered list is the whole list |
| `PainelFiltros.UltimosIsMonthWindow` | src/components/PainelAdmin.jsx:112-139 | "últimos 3/6" keeps a day exactly when its month is at most 3 (6) months before the current one, with no upper bound |
| `PainelFiltros.PainelComMesEscolhido` | src/components/PainelAdmin.jsx:62-83 | with a month chosen, a consistent panel state reads period "customizado", and the panel's list is the month filter alone whatever the period |
| `PainelFiltros.FiltrosPainel.constructor` | src/components/PainelAdmin.jsx:9-11 | the three selectors start at "todos" |
| `PainelFiltros.FiltrosPainel.SetResponsavel` | src/components/PainelAdmin.jsx:403 | the responsible selector changes only that filter |
| `PainelFiltros.FiltrosPainel.HandlePeriodoChange` | src/components/PainelAdmin.jsx:158-161 | the period is set; any period but "customizado" resets the month to "todos"; afterwards a chosen month always comes with "customizado" |
| `PainelFiltros.FiltrosPainel.HandleMesAnoChange` | src/components/PainelAdmin.jsx:163-166 | the month is set, and the period becomes "customizado" for a month and "todos" otherwise |
| `PainelStats.StatsDe` | src/components/PainelAdmin.jsx:169-213 | the summary counters: the total is the list length, completed plus active is the total, and the two buckets fit in it |
| `PainelStats.ContagemDe` | src/components/PainelAdmin.jsx:170-209 | the tally's total is the list length, completed plus active is the total, and the two buckets never exceed it |
| `PainelStats.Percentual` | src/components/PainelAdmin.jsx:210-211 | 0 for an empty total; for a part of its total, between 0 and 100, and exactly `part * 100 / total` |
| `PainelStats.PercentualCheio` | src/components/PainelAdmin.jsx:210 | a part is 100% of a non-empty total exactly when it is all of it |
| `PainelStats.CalcularStats` | src/components/PainelAdmin.jsx:169-213 | the loop's counters and percentages are those of the tally of the filtered list |
| `PainelStats.ContarPrazos` | src/components/PainelAdmin.jsx:175-209 | after the `forEach`, `noPrazo` and `atrasadas` are the on-time and late counts of the tally of the whole filtered list |
| `PainelStats.ConcluidasAreArchived` | src/components/PainelAdmin.jsx:171-172 | `concluidas` is the number of tasks with status "concluido", the archived tab's size, and `ativas` the active tab's size |
| `PainelStats.BucketsCoverIff` | src/components/PainelAdmin.jsx:175-209 | on time plus late equals the total exactly when every task has the dates its branch needs |
| `PainelStats.StatsInvariants` | src/components/PainelAdmin.jsx:169-213 | completed plus active is the total; the buckets fit in it; each percentage lies in [0, 100] and together they are at most 100; an empty list gives all zeros |
| `PainelStats.PercentuaisSomam` | src/components/PainelAdmin.jsx:210-211 | two disjoint parts of one total never add up to more than 100% |
| `PainelStats.OneOnTimeOneLate` | src/components/PainelAdmin.jsx:175-209 | one completed-on-time task and one overdue active task give total 2, one completed, one active, one on time, one late |
| `PainelResponsaveis.DadosPorResponsavel` | src/components/PainelAdmin.jsx:255-303 | one row per distinct responsible of the filtered list (as many rows as keys in first-seen order) |
| `PainelResponsaveis.OrdemSpec` | src/components/PainelAdmin.jsx:256-263 | the row order lists each responsible of the list once, and only those, in order of first appearance |
| `PainelResponsaveis.NomeDoPrimeiro` | src/components/PainelAdmin.jsx:258-262 | a row's name is the display name of the first task of that responsible |
| `PainelResponsaveis.Agrupar` | src/components/PainelAdmin.jsx:257-301 | after the `forEach`, the object has a key for each responsible of the list and no other, each holding that responsible's first display name and the tally of exactly their tasks; the keys are in first-seen order |
| `PainelResponsaveis.Valores` | src/components/PainelAdmin.jsx:302 | `Object.values` gives one row per key, in key order |
| `PainelResponsaveis.CalcularDadosPorResponsavel` | src/components/PainelAdmin.jsx:255-303 | the grouping loop over an object keyed by responsible yields exactly `DadosPorResponsavel`: one row per responsible, in first-seen order |
| `PainelResponsaveis.GruposSomamStats` | src/components/PainelAdmin.jsx:255-303 | the rows' counters add up to the summary counters: every task is counted in exactly one row, in the same bucket |
| `PainelResponsaveis.DadosPorResponsavelRows` | src/components/PainelAdmin.jsx:256-302 | one row per distinct responsible, in first-seen order; each named after that responsible's first task and holding the tally of exactly that responsible's tasks |
| `PainelResponsaveis.ResponsaveisUnicos` | src/components/PainelAdmin.jsx:315-321 | the (id, name) pairs list each responsible once, in first-seen order, with the first task's display name |
| `PainelResponsaveis.OneOnTimeOneLateOneRow` | src/components/PainelAdmin.jsx:255-303 | a completed-on-time task and an overdue active task of the same responsible make one row, named after the first, counting 2 tasks: 1 completed, 1 active, 1 on time, 1 late |
| `PainelEvolucao.FormatarMes` | src/components/PainelAdmin.jsx:55-59 | `formatarMes`: the month abbreviation, "/", the year; no contract of its own, its property is `FormatarMesInjective` |
| `PainelEvolucao.Evolucao` | src/components/PainelAdmin.jsx:216-252 | `dadosEvolucao` as a function of the current month key; no contract of its own, its properties are `PrimeirosPontos` and `EvolucaoSpec` |
| `PainelEvolucao.AbreviaturaInjective` | src/components/PainelAdmin.jsx:57 | each of the twelve abbreviations names one month |
| `PainelEvolucao.FormatarMesInjective` | src/components/PainelAdmin.jsx:55-59 | different months get different "Mmm/yyyy" labels |
| `PainelEvolucao.ContagemMes` | src/components/PainelAdmin.jsx:229-245 | the month's on-time count never exceeds its evaluated count, which never exceeds the number of tasks completed that month |
| `PainelEvolucao.PrimeirosPontos` | src/components/PainelAdmin.jsx:219-250 | the first n chart points are those of the n oldest months of the window, oldest first |
| `PainelEvolucao.CalcularDadosEvolucao` | src/components/PainelAdmin.jsx:216-252 | the loop from 11 down to 0 yields exactly `Evolucao` for the current month, its twelve points oldest first |
| `PainelEvolucao.ContarMes` | src/components/PainelAdmin.jsx:229-245 | the inner loop's `totalMes` and `noPrazoMes` are the month's evaluated and on-time counts |
| `PainelEvolucao.EvolucaoSpec` | src/components/PainelAdmin.jsx:216-252 | twelve points with distinct labels, the last one the current month; each percentage lies in [0, 100]; it is 0 without an evaluated task and 100 exactly when every evaluated task was on time |
| `PainelEvolucao.ChartAgreesWithMonthFilter` | src/components/PainelAdmin.jsx:222-245 | for completed tasks, a month's chart counts are the panel's on-time and late counts with that month chosen in the filter |
| `PainelMeses.MesesDe` | src/components/PainelAdmin.jsx:16-50 | every month in the set is the creation, completion or due month of some task |
| `PainelMeses.MesesDeHasEveryTask` | src/components/PainelAdmin.jsx:16-50 | the creation, completion and due months of every task are in the set |
| `PainelMeses.InserirDecrescente` | src/components/PainelAdmin.jsx:51 | inserting a new month into a newest-first list keeps it newest-first and adds exactly that month |
| `PainelMeses.Adicionar` | src/components/PainelAdmin.jsx:22 | adding to the set adds exactly that month and keeps it free of repeats |
| `PainelMeses.AdicionarMesesDaTarefa` | src/components/PainelAdmin.jsx:17-49 | one task adds exactly its creation, completion and due months to the set, which stays free of repeats |
| `PainelMeses.ColetarMeses` | src/components/PainelAdmin.jsx:16-50 | after the `forEach`, the set holds each month of some task's creation, completion or due date once, and no other |
| `PainelMeses.OrdenarDecrescente` | src/components/PainelAdmin.jsx:51 | sorting and reversing the set gives its months newest first, none lost or added |
| `PainelMeses.MesesDisponiveis` | src/components/PainelAdmin.jsx:14-52 | the options are newest first, without repeats, and are exactly the months of some task's creation, completion or due date |
| `PainelMeses.DecrescenteUnico` | src/components/PainelAdmin.jsx:51 | a newest-first listing of a set of months is unique, whatever order the set is read in |
| `PainelMeses.OfferedMonthsCoverSelectable` | src/components/PainelAdmin.jsx:14-52 | every month that keeps some task when chosen in the filter is among the options |
| `PainelExport.StatusDetalhado` | src/components/PainelAdmin.jsx:325-343 | an active task's label is its raw status; a completed task's label is one of "Concluída", "Concluída no prazo", "Concluída com atraso justificado", "Concluída com atraso" |
| `PainelExport.StatusDetalhadoMatchesBucket` | src/components/PainelAdmin.jsx:325-343 | a completed task's label is "Concluída no prazo" exactly when the counters call it on time, one of the two "atraso" labels exactly when they call it late (the justified one exactly when it has a justification), and "Concluída" exactly when uncounted |
| `PainelExport.StatusDetalhadoOfActive` | src/components/PainelAdmin.jsx:326 | an active task's label is its raw status, never "concluido" |
| `PainelExport.PrioridadeLabel` | src/components/PainelAdmin.jsx:361 | "Alta" exactly for "high", "Média" exactly for "medium", "Baixa" for everything else |
| `PainelExport.Linha` | src/components/PainelAdmin.jsx:356-366 | one row of the "Tarefas" sheet: status is `StatusDetalhado`, the responsible is the display name, and the justification column is never empty, showing the justification when there is one |
| `PainelExport.ExportarTarefas` | src/components/PainelAdmin.jsx:356-366 | one row per loaded task, in order, the i-th row describing the i-th task |
| `PainelExport.Desempenho` | src/components/PainelAdmin.jsx:379-387 | one row of the "Desempenho" sheet: "% No Prazo" is 0 for an empty row and lies in [0, 100] when the on-time count fits in the total |
| `PainelExport.JustificativaColumn` | src/components/PainelAdmin.jsx:365 | the column shows "-" exactly when there is no justification (or the justification is "-"), and otherwise the justification itself |
| `PainelExport.ExportarDesempenho` | src/components/PainelAdmin.jsx:379-387 | one performance row per responsible row, in order |
| `PainelExport.DesempenhoSpec` | src/components/PainelAdmin.jsx:379-387 | each performance row: completed plus active is its total, its buckets fit in it, and "% No Prazo" lies in [0, 100] and is 100 exactly when every task of the row is on time |
| `PainelExport.IndicadoresDe` | src/components/PainelAdmin.jsx:370-376 | the "Indicadores" sheet: the five summary counters with the two percentages; no contract of its own, its property is `IndicadoresAgreeWithDesempenho` |
| `PainelExport.IndicadoresAgreeWithDesempenho` | src/components/PainelAdmin.jsx:370-376 | the indicator sheet's counters are the sums of the performance sheet's columns |

## Left out

- Timestamp parsing is not modelled: the `' '`→`'T'` replacement, the
  appended `'Z'`, and the mix of UTC and local readings. Every instant is
  taken as already read on one local timeline.
- Invalid dates are not modelled. The lateness lemmas require a due time with
  hour < 24 and minute < 60; `NaN` dates and the `try/catch` around them in
  `mesesDisponiveis` are not modelled.
- Number formatting is not modelled: the rounding of `toFixed(1)` and
  `parseFloat`. Percentages are exact.
- Spreadsheet output is not modelled: XLSX workbook writing, the file name,
  and the `toLocaleString` date formatting of `formatarDataExcel`. Dates and
  times stay values in the rows, and an absent one stands for "-".
- The "Indicadores" sheet's "n (p%)" strings are not modelled: the sheet is
  kept as its numbers.
- PainelResponsaveis.ResponsaveisUnicos: the final `localeCompare` sort by
  name is not modelled; the result is the first-seen order the `Map` gives
  before sorting.
- PainelResponsaveis.CalcularDadosPorResponsavel: JavaScript orders object
  keys that look like integers before the others. The model keeps insertion
  order, which matches for the UUID-like ids the store uses.
- Months are kept as integer keys. `mesesDisponiveis` sorts "yyyy-MM"
  strings, which gives chronological order only for four-digit years.
- `formatarMes` is not modelled on arbitrary strings: it is modelled on
  month keys, and years before year 0 are not given the source's text.
- ModalTrocarSenha.Validar: length is counted in characters, not the UTF-16
  code units JavaScript counts; `FormularioValido` counts `minLength` the
  same way.
- ModalTrocarSenha.FormularioValido: only the outcome of the browser's
  constraint validation is modelled, not the message it shows.
- The due time is read as hours and minutes. The due-time text on a card is
  shown as "HH:MM", not as the stored string.
- Store and provider calls are replaced by parameters. This covers Supabase
  reads and writes and `auth.updateUser`; the provider's reply is a
  parameter, and alerts, `onSuccess`/`onClose` and reloading are outside the
  model.
- ModalConcluir.ConcluirForm.HandleConcluir: the dialog computes lateness
  when it is drawn and stamps completion when it is clicked. Both instants
  are parameters, and their order is not constrained.
- Other views are not part of this model: task creation and editing
  (ModalTarefa), sign-in, e-mail notifications, the archived list's
  "unarchive", and the charts' drawing.
