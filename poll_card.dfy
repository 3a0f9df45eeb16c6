/** One poll as a browser shows it: the vote tally computed from the
    poll's `responses`, and the card's one-shot voting guard. */
module PollCard {
  import opened Wire
  import opened JsMap

  /** `Object.keys(poll.responses).length`: one vote per voter. */
  function TotalVotes(p: Poll): (n: nat)
    ensures n == |p.responses.Keys|
  {
    |p.responses|
  }

  /** The voters whose stored choice lies in `[lo, hi)`. */
  function VotersIn(p: Poll, lo: int, hi: int): (vs: set<Id>)
    ensures vs <= p.responses.Keys
    ensures forall u | u in vs :: lo <= p.responses[u] < hi
    ensures forall u | u in p.responses && lo <= p.responses[u] < hi :: u in vs
  {
    set u | u in p.responses && lo <= p.responses[u] < hi
  }

  /** `Object.values(poll.responses).filter((v) => v === index).length`:
      the voters whose stored choice is `index`. */
  function OptionVotes(p: Poll, index: int): (n: nat)
    ensures n == |VotersIn(p, index, index + 1)|
    ensures n <= TotalVotes(p)
  {
    var chose := set u | u in p.responses && p.responses[u] == index;
    assert chose == VotersIn(p, index, index + 1);
    CardinalityOfSubset(chose, p.responses.Keys);
    |chose|
  }

  /** The counts the card shows next to options `0 .. n-1`, added up. */
  function ShownVotes(p: Poll, n: nat): nat {
    if n == 0 then 0 else ShownVotes(p, n - 1) + OptionVotes(p, n - 1)
  }

  /** Every stored choice names one of the poll's options.  The server does
      not check this; the card only ever sends such choices. */
  predicate VotesInRange(p: Poll) {
    forall u | u in p.responses :: 0 <= p.responses[u] < |p.options|
  }

  lemma {:induction false} CardinalityOfSubset<T>(a: set<T>, b: set<T>)
    requires a <= b
    ensures |a| <= |b|
    ensures |a| == |b| ==> a == b
  {
    assert b == a + (b - a);
    assert |b| == |a| + |b - a|;
    if |a| == |b| {
      assert |b - a| == 0;
      assert b - a == {};
    }
  }

  /** Splitting a range of choices splits its voters into two disjoint
      sets. */
  lemma VotersSplit(p: Poll, lo: int, mid: int, hi: int)
    requires lo <= mid <= hi
    ensures VotersIn(p, lo, hi) == VotersIn(p, lo, mid) + VotersIn(p, mid, hi)
    ensures VotersIn(p, lo, mid) * VotersIn(p, mid, hi) == {}
  {
  }

  /** The counts of the first `n` options add up to the number of voters
      whose choice is below `n`. */
  lemma {:induction false} ShownVotesCountsVoters(p: Poll, n: nat)
    ensures ShownVotes(p, n) == |VotersIn(p, 0, n)|
  {
    if n > 0 {
      ShownVotesCountsVoters(p, n - 1);
      ShownVotesStep(p, n);
    } else {
      assert VotersIn(p, 0, 0) == {};
    }
  }

  /** Adding option `n-1`'s count adds the voters who chose it. */
  lemma ShownVotesStep(p: Poll, n: nat)
    requires n > 0 && ShownVotes(p, n - 1) == |VotersIn(p, 0, n - 1)|
    ensures ShownVotes(p, n) == |VotersIn(p, 0, n)|
  {
    var below, at := VotersIn(p, 0, n - 1), VotersIn(p, n - 1, n);
    VotersSplit(p, 0, n - 1, n);
    DisjointUnionSize(below, at);
    assert |at| == OptionVotes(p, n - 1);
  }

  lemma DisjointUnionSize(a: set<Id>, b: set<Id>)
    requires a * b == {}
    ensures |a + b| == |a| + |b|
  {
  }

  /** The per-option counts never add up to more than the total, and add up
      to exactly the total when, and only when, every stored choice names an
      option. */
  lemma {:induction false} TallyAddsUp(p: Poll)
    ensures ShownVotes(p, |p.options|) <= TotalVotes(p)
    ensures ShownVotes(p, |p.options|) == TotalVotes(p) <==> VotesInRange(p)
  {
    var shown := VotersIn(p, 0, |p.options|);
    ShownVotesCountsVoters(p, |p.options|);
    CardinalityOfSubset(shown, p.responses.Keys);
    if ShownVotes(p, |p.options|) == TotalVotes(p) {
      forall u | u in p.responses ensures 0 <= p.responses[u] < |p.options| {
        assert u in shown;
      }
    }
    if VotesInRange(p) {
      assert shown == p.responses.Keys;
    }
  }

  /** A card's state: the poll it shows and whether this card has voted.
      `sent` counts the `vote-poll` events the card has emitted. */
  class Card {
    const poll: Poll
    var hasVoted: bool
    ghost var sent: nat

    /** The card has emitted one vote exactly when it shows "You voted",
        and never more than one. */
    ghost predicate Valid()
      reads this
    {
      sent <= 1 && (hasVoted <==> sent == 1)
    }

    /** `useState(false)` */
    constructor (poll: Poll)
      ensures this.poll == poll && !hasVoted && sent == 0
      ensures Valid()
    {
      this.poll := poll;
      hasVoted := false;
      sent := 0;
    }

    /** `handleVote(optionId)`: emits the vote and marks the card voted. */
    method HandleVote(optionId: int) returns (emitted: ClientEvent)
      modifies this
      ensures emitted == VotePoll(poll.id, optionId)
      ensures hasVoted && sent == old(sent) + 1
    {
      emitted := VotePoll(poll.id, optionId);
      hasVoted := true;
      sent := sent + 1;
    }

    /** A click on the button of option `index`: `!hasVoted &&
        handleVote(index)`, so only the first click emits. */
    method Click(index: nat) returns (emitted: Option<ClientEvent>)
      requires Valid() && index < |poll.options|
      modifies this
      ensures old(hasVoted) ==> emitted == None && hasVoted == old(hasVoted) && sent == old(sent)
      ensures !old(hasVoted) ==> emitted == Some(VotePoll(poll.id, index)) && hasVoted
      ensures Valid()
    {
      if hasVoted {
        emitted := None;
      } else {
        var e := HandleVote(index);
        emitted := Some(e);
      }
    }
  }
}
