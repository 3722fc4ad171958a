/** The record contract of durable execution (module/ledger.go, internal/scheduler/runner/msg.go). */
module StepLedger {

  /** One durable hop published by a step: everything needed to publish it again verbatim. */
  datatype EmitRecord = EmitRecord(
    to: string, from: string, edgeId: string, stepKey: string, data: string,
    replySubject: string, replyTarget: string, replyDeadline: int)
  {
    /** The hop goes straight to the waiting origin instance, not through the work queue. */
    predicate IsReplyHop() {
      replySubject != "" && replyTarget != "" && to == replyTarget
    }
  }

  /** What a handler sends over one edge; the runtime adds the key and the run's reply address. */
  datatype Emission = Emission(to: string, from: string, edgeId: string, data: string)

  datatype ReplyAddress = ReplyAddress(subject: string, target: string, deadline: int)

  const NO_REPLY := ReplyAddress("", "", 0)

  function HopOf(em: Emission, key: string, reply: ReplyAddress): EmitRecord {
    EmitRecord(em.to, em.from, em.edgeId, key, em.data, reply.subject, reply.target, reply.deadline)
  }

  /** The hop takes the data over this edge to this target, under the key and with the run's reply address. */
  predicate Carries(hop: EmitRecord, em: Emission, key: string, reply: ReplyAddress) {
    && hop.to == em.to && hop.from == em.from && hop.edgeId == em.edgeId && hop.data == em.data
    && hop.stepKey == key
    && hop.replySubject == reply.subject && hop.replyTarget == reply.target && hop.replyDeadline == reply.deadline
  }

  datatype Status = Done | Failed

  datatype StepRecord = StepRecord(
    node: string, status: Status, error: string, emits: seq<EmitRecord>, completedAt: int)

  /** What a delivered or re-driven message carries (runner.Msg). */
  datatype Msg = Msg(runId: string, hop: EmitRecord)
}
