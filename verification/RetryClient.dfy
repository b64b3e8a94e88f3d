/** brsapi/client.py: one budget grant per fetch, a bounded number of GETs per grant. */
module RetryClient {
  import opened ReservationProtocol

  /** What one GET comes to: a parsed 200, a 200 whose body cannot be parsed, the over-quota
      redirect, 429/502/503/504, any other status, or a transport failure. */
  datatype Reply = Ok | Unparsable | Redirect | TryLater | OtherStatus | Timeout | RequestError

  datatype Outcome = NotGranted | Success | QuotaExceeded | Failed | Raised

  /** Whether an attempt left is used. */
  predicate Retried(reply: Reply) { reply.TryLater? || reply.Timeout? || reply.RequestError? }

  /** How many GETs a granted fetch sends when its attempts are answered in turn. */
  function Gets(replies: seq<Reply>): nat {
    if replies == [] then 0 else if Retried(replies[0]) then 1 + Gets(replies[1..]) else 1
  }

  /** One per attempt up to the first reply that is not retried. */
  lemma {:induction false} GetsStopAtFirstFinal(replies: seq<Reply>, n: nat)
    requires n < |replies| && (forall k :: 0 <= k < n ==> Retried(replies[k]))
    requires n == |replies| - 1 || !Retried(replies[n])
    ensures Gets(replies) == n + 1
  {
    if n > 0 {
      GetsStopAtFirstFinal(replies[1..], n - 1);
    }
  }

  lemma {:induction false} GetsAtMostAttempts(replies: seq<Reply>)
    ensures Gets(replies) <= |replies|
  {
    if replies != [] {
      GetsAtMostAttempts(replies[1..]);
    }
  }

  /** _do_fetch after its one acquire.  `replies` answers the attempts in turn.  At most
      max_retries + 1 GETs go out, each but the last answered by a hiccup or a transport failure, so
      none follows a 302; the last reply decides the outcome and what the governor is told. */
  method DoFetch(granted: bool, replies: seq<Reply>, maxRetries: nat)
    returns (outcome: Outcome, gets: nat, reported302: bool, reportedOk: bool)
    requires |replies| == maxRetries + 1
    ensures gets == if granted then Gets(replies) else 0
    ensures gets <= maxRetries + 1
    ensures gets == 0 <==> !granted
    ensures !granted ==> outcome == NotGranted && !reported302 && !reportedOk
    ensures granted ==>
              && gets >= 1
              && (forall k :: 0 <= k < gets - 1 ==>
                    replies[k] == TryLater || replies[k] == Timeout || replies[k] == RequestError)
              && var last := replies[gets - 1];
                 && (gets == maxRetries + 1
                     || last == Ok || last == Unparsable || last == Redirect || last == OtherStatus)
                 && (last == Ok <==> outcome == Success)
                 && (last == Redirect <==> outcome == QuotaExceeded)
                 && (last == Unparsable <==> outcome == Raised)
                 && (last == OtherStatus || last == TryLater || last == Timeout || last == RequestError
                     <==> outcome == Failed)
                 && (reported302 <==> last == Redirect) && (reportedOk <==> last == Ok)
    ensures forall k :: 0 <= k < gets && replies[k] == Redirect ==> k == gets - 1 && reported302
  {
    gets, reported302, reportedOk := 0, false, false;
    if !granted {
      return NotGranted, 0, false, false;
    }
    for attempt := 0 to maxRetries + 1
      invariant gets == attempt && !reported302 && !reportedOk
      invariant forall k :: 0 <= k < attempt ==> Retried(replies[k])
      invariant attempt == maxRetries + 1 ==> replies[maxRetries].TryLater? && gets == Gets(replies)
    {
      var reply := replies[attempt];
      gets := gets + 1;
      if !Retried(reply) || attempt == maxRetries {
        GetsStopAtFirstFinal(replies, attempt);
      }
      match reply
      case Ok => return Success, gets, false, true;
      case Unparsable => return Raised, gets, false, false;
      case Redirect => return QuotaExceeded, gets, true, false;
      case OtherStatus => return Failed, gets, false, false;
      case TryLater =>
      case Timeout | RequestError =>
        if attempt == maxRetries {
          return Failed, gets, false, false;
        }
    }
    return Failed, gets, false, false;
  }

  // ---- A day's requests ----

  /** GETs sent for the grants of a day; `replies[k]` answers the attempts of the k-th grant. */
  function GetsOn(grants: seq<Grant>, replies: seq<seq<Reply>>, day: int): nat
    requires |replies| == |grants|
  {
    if grants == [] then 0
    else
      var last := |grants| - 1;
      GetsOn(grants[..last], replies[..last], day) + (if grants[last].day == day then Gets(replies[last]) else 0)
  }

  /** One more grant adds its GETs to its day alone. */
  lemma GetsOnAppend(grants: seq<Grant>, replies: seq<seq<Reply>>, g: Grant, rs: seq<Reply>, day: int)
    requires |replies| == |grants|
    ensures GetsOn(grants + [g], replies + [rs], day)
         == GetsOn(grants, replies, day) + (if g.day == day then Gets(rs) else 0)
  {
    assert (grants + [g])[..|grants|] == grants && (replies + [rs])[..|replies|] == replies;
  }

  /** Every request asks for at least one token. */
  ghost predicate Paid(s: State) {
    && (forall i :: 0 <= i < |s.stages| && (s.stages[i].Gated? || s.stages[i].Held?) ==> s.stages[i].tokens >= 1)
    && (forall k :: 0 <= k < |s.grants| ==> s.grants[k].tokens >= 1)
  }

  lemma {:induction false} PaidRun(s: State, ls: seq<Label>)
    requires Paid(s) && Legal(s, ls)
    requires forall k :: 0 <= k < |ls| && (ls[k].Gate? || ls[k].BlindGate?) ==> ls[k].tokens >= 1
    ensures Paid(Run(s, ls))
    decreases |ls|
  {
    if ls != [] {
      PaidStep(s, ls[0]);
      PaidRun(Next(s, ls[0]), ls[1..]);
    }
  }

  lemma PaidStep(s: State, l: Label)
    requires Paid(s) && Enabled(s, l) && (l.Gate? || l.BlindGate? ==> l.tokens >= 1)
    ensures Paid(Next(s, l))
  {
    if !l.Midnight? {
      OneStageMoves(s, l);
      PaidStage(s, l);
    }
  }

  /** The one stage a step changes still asks for a token, and so does what it grants. */
  lemma PaidStage(s: State, l: Label)
    requires Paid(s) && Enabled(s, l) && (l.Gate? || l.BlindGate? ==> l.tokens >= 1) && !l.Midnight?
    ensures var t := Next(s, l);
            && (t.stages[l.i].Gated? || t.stages[l.i].Held? ==> t.stages[l.i].tokens >= 1)
            && (forall k :: 0 <= k < |t.grants| ==> t.grants[k].tokens >= 1)
  {
  }

  lemma {:induction false} GetsAreBounded(grants: seq<Grant>, replies: seq<seq<Reply>>, day: int, retries: nat)
    requires |replies| == |grants|
    requires forall k :: 0 <= k < |grants| ==> grants[k].tokens >= 1 && |replies[k]| == retries + 1
    ensures GetsOn(grants, replies, day) <= (retries + 1) * GrantedOn(grants, day, false)
  {
    if grants != [] {
      var last := |grants| - 1;
      GetsAreBounded(grants[..last], replies[..last], day, retries);
      GetsAtMostAttempts(replies[last]);
      MoreTokensMoreGets(retries + 1, GrantedOn(grants[..last], day, false),
                         if grants[last].day == day then grants[last].tokens else 0);
    }
  }

  /** End to end, for any number of processes and whatever the server answers: the fetches granted
      on a day's budget send at most (max_retries + 1) * daily_limit GETs. */
  lemma DayOfRequestsIsBounded(s: State, ls: seq<Label>, day: int, replies: seq<seq<Reply>>, retries: nat)
    requires Initial(s) && Legal(s, ls) && SafeRun(s, ls)
    requires forall k :: 0 <= k < |ls| && (ls[k].Gate? || ls[k].BlindGate?) ==> ls[k].tokens >= 1
    requires |replies| == |Run(s, ls).grants| && forall k :: 0 <= k < |replies| ==> |replies[k]| == retries + 1
    ensures GetsOn(Run(s, ls).grants, replies, day) <= (retries + 1) * (if s.limit >= 0 then s.limit else 0)
  {
    HardCapHolds(s, ls, day);
    PaidRun(s, ls);
    var granted := GrantedOn(Run(s, ls).grants, day, false);
    GetsAreBounded(Run(s, ls).grants, replies, day, retries);
    MoreGrantsMoreGets(retries + 1, granted, if s.limit >= 0 then s.limit else 0);
  }

  lemma MoreTokensMoreGets(perGrant: nat, rest: nat, n: nat)
    ensures perGrant * (rest + n) == perGrant * rest + perGrant * n
    ensures n >= 1 ==> perGrant * n >= perGrant
  {
  }

  lemma MoreGrantsMoreGets(perGrant: nat, a: nat, b: nat)
    requires a <= b
    ensures perGrant * a <= perGrant * b
  {
  }
}
