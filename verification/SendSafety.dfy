/** The journal's bookkeeping of sent batches rests on the pool's verdict: the two put together. */
module SendSafety {
  import opened Options
  import opened Journal
  import opened Lookahead
  import opened WriteJournals
  import Pool = CommandPool

  /** At this point of a command's life its bytes have reached the socket, or still can. */
  ghost predicate MayLeave(s: Pool.State, before: seq<Pool.Event>)
    requires Pool.Legal(s, before)
  {
    exists after :: Pool.Legal(Pool.Run(s, before), after) && Pool.Run(Pool.Run(s, before), after).bytes > 0
  }

  /** How the send loop reads a command that failed: only NOT_SENT authorizes a retry. */
  function Failure(verdict: Pool.Status): Outcome {
    if verdict.NotSent? then PoolNotSent else PoolFailed(true)
  }

  /** A failed command whose bytes may leave, now or later, is booked as sent. */
  lemma FailureCoversBytes(s: Pool.State, before: seq<Pool.Event>)
    requires Pool.Init(s) && Pool.Legal(s, before) && Pool.Run(s, before).verdict.Some?
    ensures MayLeave(s, before) ==> Transmitted(Failure(Pool.Run(s, before).verdict.value))
  {
    hide Pool.Init, Pool.Enabled, Pool.Next, Pool.Legal, Pool.Run;
    if MayLeave(s, before) && Pool.Run(s, before).verdict == Some(Pool.NotSent) {
      var after :| Pool.Legal(Pool.Run(s, before), after) && Pool.Run(Pool.Run(s, before), after).bytes > 0;
      Pool.NotSentIsTruthful(s, before, after);
    }
  }

  /**
    End to end: a batch that is pending again after its round, and so will be sent again, belongs to a
    command of which no byte ever reaches the socket.
    */
  lemma PendingAgainNeverLeft(d: Disk, o: nat, s: Pool.State, before: seq<Pool.Event>)
    requires DiskOk(d) && IsPending(d, o) && !d[File(o, Pending)].torn
    requires Pool.Init(s) && Pool.Legal(s, before) && Pool.Run(s, before).verdict.Some?
    ensures var d' := AfterRound(d, o, Failure(Pool.Run(s, before).verdict.value));
            && (IsPending(d', o) ==> !MayLeave(s, before))
            && (MayLeave(s, before) ==> File(o, Uncertain) in d' && d'[File(o, Uncertain)] == d[File(o, Pending)])
  {
    hide DiskOk, MayLeave, Pool.Init, Pool.Legal, Pool.Run, AfterRound;
    FailureCoversBytes(s, before);
    RoundMoves(d, o, Failure(Pool.Run(s, before).verdict.value));
  }
}
