/**
  The failover budget of one relayed request.  It outlives routes and mapped candidates: at most
  six attempts, a channel once left is not returned to, and a channel is retried only with a
  target it has not served yet.
 */
module RelayFailover {

  const MAX_SWITCHES: nat := 5

  /** An upstream model name; the blank one is no target. */
  datatype Model = Model(name: string)
  const NO_MODEL := Model("")

  datatype Record = Record(channel: int, model: Model)

  function Channels(records: seq<Record>): set<int> {
    set i | 0 <= i < |records| :: records[i].channel
  }

  /** Each attempt opens a new channel or stays on the one just used. */
  ghost predicate Orderly(records: seq<Record>) {
    forall i | 0 < i < |records| :: StaysOrOpens(records, i)
  }

  predicate StaysOrOpens(records: seq<Record>, i: nat)
    requires 0 < i < |records|
  {
    records[i].channel == records[i - 1].channel || records[i].channel !in Channels(records[..i])
  }

  predicate Served(records: seq<Record>, channel: int, target: Model) {
    exists i | 0 <= i < |records| :: records[i].channel == channel && records[i].model == target
  }

  lemma ChannelsMore(records: seq<Record>, r: Record)
    ensures Channels(records + [r]) == Channels(records) + {r.channel}
  {
    var s := records + [r];
    forall c | c in Channels(records) + {r.channel} ensures c in Channels(s) {
      if c in Channels(records) {
        var i :| 0 <= i < |records| && records[i].channel == c;
        assert s[i].channel == c;
      } else {
        assert s[|records|].channel == c;
      }
    }
  }

  lemma OrderlyMore(records: seq<Record>, r: Record)
    requires Orderly(records)
    requires records == [] || r.channel == records[|records| - 1].channel || r.channel !in Channels(records)
    ensures Orderly(records + [r])
  {
    var s := records + [r];
    forall i | 0 < i < |s| ensures StaysOrOpens(s, i) {
      assert s[..i] == records[..i];
      if i < |records| {
        assert StaysOrOpens(records, i);
      } else {
        assert records[..i] == records;
      }
    }
  }

  /** Orderly attempts visit each channel in one stretch. */
  lemma {:induction false} VisitedOnce(records: seq<Record>, i: nat, j: nat, k: nat)
    requires Orderly(records) && i <= j <= k < |records| && records[i].channel == records[k].channel
    ensures records[j].channel == records[k].channel
    decreases k - j
  {
    if j < k {
      assert StaysOrOpens(records, k);
      assert records[..k][i] == records[i];
      VisitedOnce(records, i, j, k - 1);
    }
  }

  class Failover {
    var attemptCount: int
    var switchCount: int
    const maxSwitches: int
    var attempted: set<int>
    var records: seq<Record>

    ghost predicate Valid()
      reads this
    {
      && maxSwitches == MAX_SWITCHES
      && attemptCount == |records| <= MAX_SWITCHES + 1
      && attempted == Channels(records)
      && Orderly(records)
      && switchCount == if records == [] then 0 else |attempted| - 1
    }

    constructor ()
      ensures Valid() && records == []
    {
      maxSwitches, attemptCount, switchCount, attempted, records := MAX_SWITCHES, 0, 0, {}, [];
    }

    predicate CanAttempt()
      reads this
    {
      attemptCount < maxSwitches + 1
    }

    method BeginAttempt(channel: int)
      requires CanAttempt()
      modifies this`attemptCount, this`records
      ensures attemptCount == old(attemptCount) + 1 && records == old(records) + [Record(channel, NO_MODEL)]
    {
      attemptCount := attemptCount + 1;
      records := records + [Record(channel, NO_MODEL)];
    }

    /** Opens a channel that has not been attempted. */
    method Begin(channel: int) returns (ok: bool)
      requires Valid()
      modifies this
      ensures Valid()
      ensures ok <==> old(CanAttempt()) && channel !in Channels(old(records))
      ensures records == if ok then old(records) + [Record(channel, NO_MODEL)] else old(records)
    {
      if !CanAttempt() || channel in attempted {
        return false;
      }
      ChannelsMore(records, Record(channel, NO_MODEL));
      OrderlyMore(records, Record(channel, NO_MODEL));
      attempted := attempted + {channel};
      if attemptCount > 0 {
        switchCount := switchCount + 1;
      }
      BeginAttempt(channel);
      return true;
    }

    /** Stays on the channel just used, with a target it has not served. */
    method BeginMappedCandidate(channel: int, target: Model) returns (ok: bool)
      requires Valid()
      modifies this
      ensures Valid()
      ensures ok <==> && old(CanAttempt()) && target != NO_MODEL
                      && old(records) != [] && old(records)[|old(records)| - 1].channel == channel
                      && !Served(old(records), channel, target)
      ensures records == if ok then old(records) + [Record(channel, NO_MODEL)] else old(records)
    {
      if !CanAttempt() || target == NO_MODEL || records == [] || records[|records| - 1].channel != channel {
        return false;
      }
      for i := 0 to |records|
        invariant forall j | 0 <= j < i :: !(records[j].channel == channel && records[j].model == target)
      {
        if records[i].channel == channel && records[i].model == target {
          return false;
        }
      }
      ChannelsMore(records, Record(channel, NO_MODEL));
      OrderlyMore(records, Record(channel, NO_MODEL));
      assert channel in Channels(records);
      BeginAttempt(channel);
      return true;
    }

    /** Notes which upstream model the current attempt was sent to. */
    method NoteModel(model: Model)
      requires Valid() && records != []
      modifies this`records
      ensures Valid() && records == old(records)[|old(records)| - 1 := Record(old(records)[|old(records)| - 1].channel, model)]
    {
      SameChannels(records, |records| - 1, model);
      records := records[|records| - 1 := Record(records[|records| - 1].channel, model)];
    }
  }

  lemma SameChannels(records: seq<Record>, i: nat, model: Model)
    requires i < |records|
    ensures var s := records[i := Record(records[i].channel, model)];
            Channels(s) == Channels(records) && (Orderly(records) ==> Orderly(s))
  {
    var s := records[i := Record(records[i].channel, model)];
    assert forall j | 0 <= j < |s| :: s[j].channel == records[j].channel;
    assert forall c | c in Channels(records) :: c in Channels(s);
    if Orderly(records) {
      forall j | 0 < j < |s| ensures StaysOrOpens(s, j) {
        assert StaysOrOpens(records, j);
        forall n | 0 <= n < j ensures s[..j][n].channel == records[..j][n].channel {
        }
        assert Channels(s[..j]) <= Channels(records[..j]);
      }
    }
  }
}
