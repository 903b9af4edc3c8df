/** The records the runtime exchanges with agents. */
module AgentContracts {
  import opened Wrappers
  import opened Json
  import opened ExecutionGraph

  datatype FailurePolicy = Stop | Continue | BlockDependents

  datatype AgentSpec = AgentSpec(agentId: string, capabilities: seq<string>, adapter: string, maxAttempts: int)

  datatype RuntimeTask = RuntimeTask(
    taskId: string, title: string, requiredCapabilities: seq<string>, dependsOn: seq<string>,
    context: map<string, Json>, preferredAgent: Option<string>, failurePolicy: FailurePolicy)

  type Document = map<string, Json>

  datatype AgentInput = AgentInput(
    runId: string, task: RuntimeTask, agent: AgentSpec, context: Document, memory: Document,
    handoffs: map<string, Document>)

  datatype OutputStatus = OutputPassed | OutputFailed

  datatype AgentOutput = AgentOutput(
    status: OutputStatus, result: Document, evidence: seq<Json>, memoryUpdates: Document, error: Option<string>)

  function NodeOf(task: RuntimeTask): TaskNode {
    TaskNode(task.taskId, task.dependsOn)
  }

  function Nodes(tasks: seq<RuntimeTask>): (r: seq<TaskNode>)
    ensures |r| == |tasks| && forall i :: 0 <= i < |r| ==> r[i] == NodeOf(tasks[i])
  {
    seq(|tasks|, i requires 0 <= i < |tasks| => NodeOf(tasks[i]))
  }
}
