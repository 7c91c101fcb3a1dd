/** A row of the `tarefas` table as the views receive it, with its timestamps
    already read as local instants (ms) and its dates as day numbers. */
module Tasks {
  import opened Wrappers

  /** The status value that marks a task as completed; every other value is active. */
  const Concluido: string := "concluido"

  /** The justification stored when the user says the task was not really late. */
  const NotLateSentinel: string := "Usuário informou que não estava atrasada"

  /** `prazo_hora` read as "HH:MM". */
  datatype TimeOfDay = TimeOfDay(hour: nat, minute: nat)

  predicate ValidTime(t: TimeOfDay)
  {
    t.hour < 24 && t.minute < 60
  }

  /** A due time that is either absent or a real time of day. */
  predicate ValidHora(hora: Option<TimeOfDay>)
  {
    hora.None? || ValidTime(hora.value)
  }

  /** An empty `responsavelNome` or `justificativa` stands for a null or empty
      column: both are falsy in the views' tests. */
  datatype Task = Task(
    id: string,
    descricao: string,
    responsavel: string,
    responsavelNome: string,
    status: string,
    priority: string,
    prazoData: Option<int>,
    prazoHora: Option<TimeOfDay>,
    createdAt: Option<int>,
    concluidoEm: Option<int>,
    justificativa: string)

  predicate IsConcluido(t: Task)
  {
    t.status == Concluido
  }

  predicate IsAtiva(t: Task)
  {
    t.status != Concluido
  }

  /** `responsavel_nome || responsavel`. */
  function DisplayName(t: Task): string
  {
    if t.responsavelNome != "" then t.responsavelNome else t.responsavel
  }
}
