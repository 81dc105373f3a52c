/** The in-memory ring buffer of `sentinel/telemetry.py` (`MemorySink`). */
module EventRing {

  datatype AuditEvent = AuditEvent(id: string, tenant: string)

  function Last<T>(s: seq<T>, n: nat): seq<T> {
    if |s| <= n then s else s[|s| - n..]
  }

  function Reversed<T>(s: seq<T>): (r: seq<T>)
    ensures |r| == |s|
    ensures forall i :: 0 <= i < |s| ==> r[i] == s[|s| - 1 - i]
  {
    seq(|s|, i requires 0 <= i < |s| => s[|s| - 1 - i])
  }

  function Matching(s: seq<AuditEvent>, tenant: string): (r: seq<AuditEvent>)
    ensures forall e :: e in r <==> e in s && e.tenant == tenant
  {
    if s == [] then []
    else Matching(s[..|s| - 1], tenant) + (if s[|s| - 1].tenant == tenant then [s[|s| - 1]] else [])
  }

  /** The slice `s[-limit:]`: a zero limit takes everything and a negative one skips from the front. */
  function FromEnd<T>(s: seq<T>, limit: int): seq<T> {
    if limit > 0 then Last(s, limit)
    else if -limit <= |s| then s[-limit..]
    else []
  }

  class MemorySink {
    const maxSize: nat
    var events: seq<AuditEvent>
    ghost var sent: seq<AuditEvent>

    constructor (maxSize: nat)
      ensures this.maxSize == maxSize && Valid() && sent == []
    {
      this.maxSize := maxSize;
      events := [];
      sent := [];
    }

    /** The buffer holds the newest events ever sent, as many as fit. */
    ghost predicate Valid()
      reads this
    {
      events == Last(sent, maxSize)
    }

    method Send(e: AuditEvent)
      requires Valid()
      modifies this
      ensures Valid() && sent == old(sent) + [e]
    {
      events := events + [e];
      if |events| > maxSize {
        events := events[1..];
      }
      sent := sent + [e];
    }

    method Clear()
      modifies this
      ensures Valid() && sent == []
    {
      events := [];
      sent := [];
    }

    /** Newest first; an empty tenant means no filter. */
    method GetEvents(limit: int, tenant: string) returns (r: seq<AuditEvent>)
      requires Valid()
      ensures r == Reversed(FromEnd(if tenant == "" then Last(sent, maxSize) else Matching(Last(sent, maxSize), tenant), limit))
      ensures tenant != "" ==> forall e :: e in r ==> e.tenant == tenant
    {
      var selected := events;
      if tenant != "" {
        selected := Matching(events, tenant);
      }
      r := Reversed(FromEnd(selected, limit));
      assert forall e :: e in r ==> e in selected;
    }
  }

  /**
    The selection keeps the order of the events and how often each one is there: its `i`-th event is one of the
    tenant's with exactly `i` of the tenant's events before it.
   */
  lemma {:induction false} SelectedAt(s: seq<AuditEvent>, tenant: string, i: nat) returns (p: nat)
    requires i < |Matching(s, tenant)|
    ensures p < |s| && s[p] == Matching(s, tenant)[i] && s[p].tenant == tenant
    ensures |Matching(s[..p], tenant)| == i
  {
    var front := s[..|s| - 1];
    if i < |Matching(front, tenant)| {
      p := SelectedAt(front, tenant, i);
      assert front[..p] == s[..p];
    } else {
      p := |s| - 1;
    }
  }

  /** Every event of the tenant is selected. */
  lemma {:induction false} SelectsAll(s: seq<AuditEvent>, tenant: string, p: nat)
    requires p < |s| && s[p].tenant == tenant
    ensures |Matching(s[..p], tenant)| < |Matching(s, tenant)|
    ensures Matching(s, tenant)[|Matching(s[..p], tenant)|] == s[p]
  {
    if p < |s| - 1 {
      var front := s[..|s| - 1];
      assert front[..p] == s[..p];
      SelectsAll(front, tenant, p);
    }
  }

  lemma {:induction false} MatchingOfConcat(a: seq<AuditEvent>, b: seq<AuditEvent>, tenant: string)
    ensures Matching(a + b, tenant) == Matching(a, tenant) + Matching(b, tenant)
    decreases |b|
  {
    if b == [] {
      assert a + b == a;
    } else {
      assert (a + b)[..|a + b| - 1] == a + b[..|b| - 1];
      MatchingOfConcat(a, b[..|b| - 1], tenant);
    }
  }

  /**
    What a tenant is answered, with a positive limit: at place `i` an event of its own that is followed by
    exactly `i` later events of its own.
   */
  lemma TenantNewestFirst(s: seq<AuditEvent>, tenant: string, limit: int, i: nat) returns (p: nat)
    requires limit >= 1 && i < limit && i < |Matching(s, tenant)|
    ensures i < |Reversed(FromEnd(Matching(s, tenant), limit))|
    ensures p < |s| && Reversed(FromEnd(Matching(s, tenant), limit))[i] == s[p] && s[p].tenant == tenant
    ensures |Matching(s[p + 1..], tenant)| == i
  {
    var selected := Matching(s, tenant);
    NewestFirst(selected, limit, i);
    p := SelectedAt(s, tenant, |selected| - 1 - i);
    assert s == s[..p] + ([s[p]] + s[p + 1..]) && [s[p]][..0] == [];
    MatchingOfConcat(s[..p], [s[p]] + s[p + 1..], tenant);
    MatchingOfConcat([s[p]], s[p + 1..], tenant);
  }

  /** A negative limit leaves out that many of the oldest events. */
  lemma NegativeLimitSkips(s: seq<AuditEvent>, limit: int)
    requires limit < 0
    ensures FromEnd(s, limit) == if -limit < |s| then s[-limit..] else []
  {
  }

  /** The limit limits exactly when it is positive: a zero limit returns every event there is. */
  lemma LimitHoldsIff(s: seq<AuditEvent>, limit: int)
    ensures |Reversed(FromEnd(s, limit))| <= limit <==> limit >= 1 || (limit == 0 && s == [])
  {
    assert limit == 0 ==> FromEnd(s, limit) == s;
  }

  /** With a positive limit the answer is the newest selected events, newest first. */
  lemma NewestFirst(s: seq<AuditEvent>, limit: int, i: nat)
    requires limit >= 1 && i < limit && i < |s|
    ensures i < |Reversed(FromEnd(s, limit))| && Reversed(FromEnd(s, limit))[i] == s[|s| - 1 - i]
  {
    assert FromEnd(s, limit) == Last(s, limit);
  }
}
