/** Types shared by the assistant's matcher, batch resolver and worker. */
module Assistant {
  datatype Decision = Match | Review | Reject

  datatype Proof = Proof(pass: bool, source: string)

  /** The untrusted classification an AI provider returns. */
  datatype MatchOutput = MatchOutput(
    decision: Decision, evidence: seq<string>, criteria: map<string, Proof>,
    conflicts: seq<string>, unknowns: seq<string>, rationale: string)

  datatype Category =
    | RateLimit | Auth | Quota | Server | Network | Timeout | Canceled
    | InvalidResponse | ContextLimit | ContentFilter | InvalidRequest

  datatype Option<T> = None | Some(value: T)

  const IdListMatch := MatchOutput(Match, [], map["role" := Proof(true, "title")], [], [], "id_list_match")

  const IdListReject := MatchOutput(Reject, [], map[], ["omitted_from_id_list"], [], "omitted")

  function IdListReview(reason: string): MatchOutput {
    MatchOutput(Review, [], map[], [], [reason], reason)
  }
}
