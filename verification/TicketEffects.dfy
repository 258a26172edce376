/** What an operation on the tickets does, told ticket by ticket: who is still there, who may be replaced,
    who is claimed; and that a pending ticket waits for its deadline. */
module TicketEffects {
  import opened Common
  import opened LaunchTickets
  import opened TicketRuns

  /** Claimed tickets do not expire. */
  predicate Alive(t: Ticket, now: int) {
    t.claimed || t.expiresAt > now
  }

  /** One client: by certificate, or without one by a known unique id and the address. */
  predicate OneClient(a: Session, b: Session) {
    if a.certUuid != "" || b.certUuid != "" then a.certUuid == b.certUuid
    else a.uniqueId == b.uniqueId && a.peer == b.peer && a.uniqueId != "" && a.uniqueId != "unknown"
  }

  lemma SameClientIff(a: Session, b: Session)
    ensures SameClient(a, b) <==> OneClient(a, b)
    ensures Clash(a, b) <==> OneClient(a, b)
  {
  }

  lemma PruneIsAlive(ts: seq<Ticket>, now: int)
    ensures forall t :: t in Prune(ts, now) <==> t in ts && Alive(t, now)
  {
    PruneMembers(ts, now);
  }

  // ---------------------------------------------------------------- how many

  function Indices(ts: seq<Ticket>, p: Ticket -> bool): set<int> {
    set i | 0 <= i < |ts| && p(ts[i])
  }

  lemma IndicesOfTail(ts: seq<Ticket>, p: Ticket -> bool)
    requires ts != []
    ensures |Indices(ts, p)| == |Indices(ts[1..], p)| + if p(ts[0]) then 1 else 0
  {
    var rest := Indices(ts[1..], p);
    var shifted := set i | i in rest :: i + 1;
    ShiftKeepsSize(rest);
    assert Indices(ts, p) == shifted + if p(ts[0]) then {0} else {} by {
      forall i | i in Indices(ts, p) && i > 0 ensures i in shifted {
        assert i - 1 in rest;
      }
    }
  }

  lemma {:induction false} ShiftKeepsSize(s: set<int>)
    ensures |set i | i in s :: i + 1| == |s|
  {
    var shifted := set i | i in s :: i + 1;
    if s == {} {
      assert shifted == {};
    } else {
      var x := SomeMember(s);
      ShiftKeepsSize(s - {x});
      var others := set i | i in s - {x} :: i + 1;
      forall y | y in shifted ensures y in others + {x + 1} {
        var i :| i in s && i + 1 == y;
        assert i != x ==> i in s - {x};
      }
      forall y | y in others + {x + 1} ensures y in shifted {
        if y == x + 1 {
          assert x in s;
        }
      }
      assert shifted == others + {x + 1} && x + 1 !in others;
    }
  }

  lemma {:induction false} AliveCount(ts: seq<Ticket>, now: int)
    ensures |Prune(ts, now)| == |Indices(ts, t => Alive(t, now))|
  {
    if ts == [] {
    } else {
      AliveCount(ts[1..], now);
      IndicesOfTail(ts, t => Alive(t, now));
    }
  }

  predicate LegacyFrom(t: Ticket, peer: string) {
    t.session.certUuid == "" && t.session.peer == peer
  }

  lemma {:induction false} PeersCounted(ts: seq<Ticket>, now: int, peer: string)
    ensures PeerCount(Prune(ts, now), peer) == |Indices(ts, t => Alive(t, now) && LegacyFrom(t, peer))|
  {
    var p := (t: Ticket) => Alive(t, now) && LegacyFrom(t, peer);
    if ts == [] {
    } else {
      PeersCounted(ts[1..], now, peer);
      IndicesOfTail(ts, p);
      if Alive(ts[0], now) {
        assert Prune(ts, now)[1..] == Prune(ts[1..], now);
      } else {
        assert Prune(ts, now) == Prune(ts[1..], now);
      }
    }
  }

  // ---------------------------------------------------------------- registration

  /** The tickets afterwards are those alive, and nothing else. */
  ghost predicate Swept(ts: seq<Ticket>, now: int, ts': seq<Ticket>) {
    forall t :: t in ts' <==> t in ts && Alive(t, now)
  }

  /** The alive tickets of other clients, and the new one, pending until its timeout. */
  ghost predicate Stored(ts: seq<Ticket>, s: Session, timeout: int, now: int, ts': seq<Ticket>) {
    forall t :: t in ts' <==> t == Ticket(s, false, 0, now + timeout) ||
                              (t in ts && Alive(t, now) && !OneClient(t.session, s))
  }

  /** What register_session does and answers. */
  ghost predicate RegisterEffect(m: Manager, s: Session, timeout: int, now: int, ts': seq<Ticket>, result: RegisterResult) {
    var ts := m.tickets;
    if exists t :: t in ts && t.claimed && OneClient(t.session, s) then result == ClientBusy && Swept(ts, now, ts')
    else if exists t :: t in ts && Alive(t, now) && OneClient(t.session, s) then
      result == Replaced && Stored(ts, s, timeout, now, ts')
    else if s.certUuid == "" && s.peer != "" &&
            |Indices(ts, t => Alive(t, now) && LegacyFrom(t, s.peer))| >= m.perClientLimit then
      result == ClientLimit && Swept(ts, now, ts')
    else if |Indices(ts, t => Alive(t, now))| >= m.globalLimit then result == GlobalLimit && Swept(ts, now, ts')
    else result == Accepted && Stored(ts, s, timeout, now, ts')
  }

  lemma AtMostOneOfAClient(ts: seq<Ticket>, i: int, j: int, s: Session)
    requires NoClash(ts) && 0 <= i < |ts| && 0 <= j < |ts|
    requires OneClient(ts[i].session, s) && OneClient(ts[j].session, s)
    ensures i == j
  {
    SameClientIff(ts[i].session, ts[j].session);
    SameClientIff(ts[j].session, ts[i].session);
    assert OneClient(ts[i].session, ts[j].session) && OneClient(ts[j].session, ts[i].session);
  }

  lemma ReplaceStores(ts: seq<Ticket>, live: seq<Ticket>, i: nat, s: Session, timeout: int, now: int)
    requires NoClash(live) && i < |live| && OneClient(live[i].session, s)
    requires forall t :: t in live <==> t in ts && Alive(t, now)
    ensures Stored(ts, s, timeout, now, live[i := Ticket(s, false, 0, now + timeout)])
  {
    var fresh_ := Ticket(s, false, 0, now + timeout);
    var after := live[i := fresh_];
    forall t ensures t in after <==> t == fresh_ || (t in ts && Alive(t, now) && !OneClient(t.session, s)) {
      if t in after && t != fresh_ {
        var j :| 0 <= j < |after| && after[j] == t;
        assert live[j] == t;
        if OneClient(t.session, s) {
          AtMostOneOfAClient(live, i, j, s);
        }
      }
      if t in ts && Alive(t, now) && !OneClient(t.session, s) {
        var j :| 0 <= j < |live| && live[j] == t;
        assert after[j] == t;
      }
      assert after[i] == fresh_;
    }
  }

  lemma RegisterHasEffect(m: Manager, s: Session, timeout: int, now: int)
    requires Inv(m)
    ensures RegisterEffect(m, s, timeout, now, Registered(m, s, timeout, now).tickets, RegisterOutcome(m, s, now))
  {
    var live := Prune(m.tickets, now);
    var i := FindClient(live, s);
    PruneIsAlive(m.tickets, now);
    PruneKeeps(m.tickets, now);
    AliveCount(m.tickets, now);
    PeersCounted(m.tickets, now, s.peer);
    forall j | 0 <= j < |live| ensures SameClient(live[j].session, s) <==> OneClient(live[j].session, s) {
      SameClientIff(live[j].session, s);
    }
    if i < |live| {
      assert live[i] in live;
      ReplaceStores(m.tickets, live, i, s, timeout, now);
      forall t | t in m.tickets && t.claimed && OneClient(t.session, s) ensures live[i].claimed {
        var j :| 0 <= j < |live| && live[j] == t;
        AtMostOneOfAClient(live, i, j, s);
      }
    } else {
      forall t | t in m.tickets && Alive(t, now) ensures !OneClient(t.session, s) {
        var j :| 0 <= j < |live| && live[j] == t;
      }
    }
  }

  // ---------------------------------------------------------------- claims

  /** Of the alive tickets, this one alone matches. */
  ghost predicate AloneMatches(ts: seq<Ticket>, now: int, i: int, matches: Ticket -> bool) {
    && 0 <= i < |ts| && Alive(ts[i], now) && matches(ts[i])
    && forall j :: 0 <= j < |ts| && j != i ==> !(Alive(ts[j], now) && matches(ts[j]))
  }

  /** What makes a ticket match: without a key the address the claim comes from, with one that it opens the
      message. */
  lemma MatchIff(e: Event, t: Ticket)
    requires e.ClaimPlaintext? || e.ClaimEncrypted?
    ensures Match(e)(t) <==>
              match e
              case ClaimPlaintext(address, _) => t.session.cipher == None && address == t.session.peer && address != ""
              case ClaimEncrypted(_, opens, _) => t.session.cipher != None && t.session.cipher.value in opens
              case _ => false
  {
    match e
    case ClaimPlaintext(_, _) =>
    case ClaimEncrypted(_, _, _) =>
  }

  lemma {:induction false} AloneInPruned(ts: seq<Ticket>, now: int, i: int, matches: Ticket -> bool) returns (k: int)
    requires AloneMatches(ts, now, i, matches)
    ensures OnlyMatch(Prune(ts, now), k, matches) && Prune(ts, now)[k] == ts[i]
  {
    var rest := Prune(ts[1..], now);
    PruneIsAlive(ts[1..], now);
    if i == 0 {
      k := 0;
      forall j | 0 <= j < |rest| ensures !matches(rest[j]) {
        assert rest[j] in ts[1..];
        var x :| 0 <= x < |ts[1..]| && ts[1..][x] == rest[j];
        assert ts[x + 1] == rest[j];
      }
    } else {
      assert AloneMatches(ts[1..], now, i - 1, matches) by {
        forall j | 0 <= j < |ts[1..]| && j != i - 1 ensures !(Alive(ts[1..][j], now) && matches(ts[1..][j])) {
          assert ts[1..][j] == ts[j + 1];
        }
      }
      k := AloneInPruned(ts[1..], now, i - 1, matches);
      if Alive(ts[0], now) {
        assert Prune(ts, now) == [ts[0]] + rest;
        k := k + 1;
      } else {
        assert Prune(ts, now) == rest;
      }
    }
  }

  lemma {:induction false} AloneInAll(ts: seq<Ticket>, now: int, k: int, matches: Ticket -> bool) returns (i: int)
    requires OnlyMatch(Prune(ts, now), k, matches)
    ensures AloneMatches(ts, now, i, matches)
  {
    var rest := Prune(ts[1..], now);
    PruneIsAlive(ts[1..], now);
    if Alive(ts[0], now) {
      assert Prune(ts, now) == [ts[0]] + rest;
      if k == 0 {
        i := 0;
        forall j | 0 < j < |ts| ensures !(Alive(ts[j], now) && matches(ts[j])) {
          assert ts[1..][j - 1] == ts[j];
          if Alive(ts[j], now) {
            assert ts[j] in rest;
            var x :| 0 <= x < |rest| && rest[x] == ts[j];
            assert Prune(ts, now)[x + 1] == ts[j];
          }
        }
        return;
      }
      assert OnlyMatch(rest, k - 1, matches) by {
        forall j | 0 <= j < |rest| && j != k - 1 ensures !matches(rest[j]) {
          assert Prune(ts, now)[j + 1] == rest[j];
        }
      }
      assert !matches(ts[0]) by {
        assert Prune(ts, now)[0] == ts[0];
      }
      i := AloneInAll(ts[1..], now, k - 1, matches);
    } else {
      assert Prune(ts, now) == rest;
      i := AloneInAll(ts[1..], now, k, matches);
    }
    i := i + 1;
    forall j | 0 <= j < |ts| && j != i ensures !(Alive(ts[j], now) && matches(ts[j])) {
      assert j > 0 ==> ts[1..][j - 1] == ts[j];
    }
  }

  /** The alive tickets, of which the one is claimed once more. */
  ghost predicate ClaimsOne(ts: seq<Ticket>, now: int, i: int, ts': seq<Ticket>)
    requires 0 <= i < |ts|
  {
    var t := ts[i];
    && Ticket(t.session, true, t.claimCount + 1, t.expiresAt) in ts'
    && (forall u :: u in ts' ==> u == Ticket(t.session, true, t.claimCount + 1, t.expiresAt) || (u in ts && Alive(u, now)))
    && (forall u :: u in ts && Alive(u, now) && u != t ==> u in ts')
  }

  /** What a claim does and yields: the one ticket that matches, or nothing but expiry. */
  ghost predicate ClaimEffect(ts: seq<Ticket>, now: int, matches: Ticket -> bool, ts': seq<Ticket>, session: Option<Session>) {
    && (session.None? ==> Swept(ts, now, ts') && !exists i :: AloneMatches(ts, now, i, matches))
    && (session.Some? ==> exists i :: AloneMatches(ts, now, i, matches) && session.value == ts[i].session && ClaimsOne(ts, now, i, ts'))
  }

  lemma ClaimHasEffect(ts: seq<Ticket>, now: int, matches: Ticket -> bool)
    ensures var live := Prune(ts, now);
      ClaimEffect(ts, now, matches, Claimed(live, matches), ClaimedSession(live, matches))
  {
    var live := Prune(ts, now);
    PruneIsAlive(ts, now);
    if k :| OnlyMatch(live, k, matches) {
      OnlyMatchIsUnique(live, k, matches);
      var i := AloneInAll(ts, now, k, matches);
      var k' := AloneInPruned(ts, now, i, matches);
      assert k' == k && live[k] == ts[i];
      ClaimingOne(ts, now, i, live, k);
    } else {
      forall i ensures !AloneMatches(ts, now, i, matches) {
        if AloneMatches(ts, now, i, matches) {
          var k := AloneInPruned(ts, now, i, matches);
        }
      }
    }
  }

  lemma ClaimingOne(ts: seq<Ticket>, now: int, i: int, live: seq<Ticket>, k: int)
    requires 0 <= i < |ts| && 0 <= k < |live| && live[k] == ts[i]
    requires forall t :: t in live <==> t in ts && Alive(t, now)
    ensures ClaimsOne(ts, now, i, live[k := Claim(live[k])])
  {
    var after := live[k := Claim(live[k])];
    assert after[k] == Claim(live[k]);
    forall u | u in after && u != Claim(live[k]) ensures u in live {
      var j :| 0 <= j < |after| && after[j] == u;
      assert live[j] == u;
    }
    forall u | u in live && u != live[k] ensures u in after {
      var j :| 0 <= j < |live| && live[j] == u;
      assert after[j] == u;
    }
  }

  // ---------------------------------------------------------------- a pending ticket waits

  predicate Timed(e: Event) {
    e.Register? || e.ClaimPlaintext? || e.ClaimEncrypted? || e.PruneNow?
  }

  /** The event comes at or after the deadline, replaces the ticket by another of its client, erases it or
      clears all, or claims it. */
  ghost predicate EndsWait(m: Manager, e: Event, t: Ticket) {
    || e.Clear?
    || (e.Erase? && e.id == t.session.id)
    || (Timed(e) && e.now >= t.expiresAt)
    || (e.Register? && e.session.Some? && OneClient(t.session, e.session.value))
    || (e.ClaimPlaintext? && exists i :: AloneMatches(m.tickets, e.now, i, Match(e)) && m.tickets[i] == t)
    || (e.ClaimEncrypted? && exists i :: AloneMatches(m.tickets, e.now, i, Match(e)) && m.tickets[i] == t)
  }

  lemma ClaimLeavesOthers(m: Manager, e: Event, t: Ticket)
    requires (e.ClaimPlaintext? || e.ClaimEncrypted?) && t in m.tickets && !t.claimed && !EndsWait(m, e, t)
    ensures t in Step(m, e).tickets
  {
    ClaimHasEffect(m.tickets, e.now, Match(e));
  }

  lemma PendingWaits(m: Manager, e: Event, t: Ticket)
    requires Inv(m) && t in m.tickets && !t.claimed && !EndsWait(m, e, t)
    ensures t in Step(m, e).tickets
  {
    match e
    case Register(session, timeout, now) =>
      if session.Some? {
        RegisterHasEffect(m, session.value, timeout, now);
      }
    case ClaimPlaintext(_, _) => ClaimLeavesOthers(m, e, t);
    case ClaimEncrypted(_, _, _) => ClaimLeavesOthers(m, e, t);
    case Release(id, timeout, now) => ReleaseLeavesOthers(m, e, t);
    case Erase(id) => WithoutKeeps(m.tickets, id);
    case PruneNow(now) => PruneIsAlive(m.tickets, now);
    case Clear =>
  }

  lemma ReleaseLeavesOthers(m: Manager, e: Event, t: Ticket)
    requires e.Release? && t in m.tickets && !t.claimed
    ensures t in Step(m, e).tickets
  {
    var j :| 0 <= j < |m.tickets| && m.tickets[j] == t;
    assert Step(m, e).tickets[j] == t;
  }

  ghost predicate NothingEndsWait(m: Manager, later: seq<Event>, t: Ticket) {
    forall n :: 0 <= n < |later| ==> !EndsWait(Run(m, later[..n]), later[n], t)
  }

  lemma {:induction false} WaitsOverRun(m: Manager, later: seq<Event>, t: Ticket)
    requires Inv(m) && t in m.tickets && !t.claimed && NothingEndsWait(m, later, t)
    ensures t in Run(m, later).tickets && Inv(Run(m, later))
  {
    if later == [] {
    } else {
      var last := |later| - 1;
      assert NothingEndsWait(m, later[..last], t) by {
        forall n | 0 <= n < last ensures later[..last][..n] == later[..n] {
        }
      }
      WaitsOverRun(m, later[..last], t);
      PendingWaits(Run(m, later[..last]), later[last], t);
      StepKeepsInv(Run(m, later[..last]), later[last]);
    }
  }

  /** Over any run: a registered ticket is there, pending, at every time before its deadline, unless it is
      claimed, replaced by its own client, erased or cleared; and a message that only its key opens then
      claims it. */
  lemma RegisteredTicketCanBeClaimed(m: Manager, s: Session, timeout: int, now: int, later: seq<Event>,
                                     opens: map<Key, Plaintext>, at: int)
    requires Inv(m) && (RegisterOutcome(m, s, now).Accepted? || RegisterOutcome(m, s, now).Replaced?)
    requires NothingEndsWait(Step(m, Register(Some(s), timeout, now)), later, Ticket(s, false, 0, now + timeout))
    ensures var t, after := Ticket(s, false, 0, now + timeout), Run(Step(m, Register(Some(s), timeout, now)), later);
      && t in after.tickets
      && (at < now + timeout && (exists i :: 0 <= i < |after.tickets| && after.tickets[i] == t &&
                                             AloneMatches(after.tickets, at, i, t => KeyMatch(t, opens))) ==>
            ClaimedSession(Prune(after.tickets, at), t => KeyMatch(t, opens)) == Some(s))
  {
    var t, first := Ticket(s, false, 0, now + timeout), Step(m, Register(Some(s), timeout, now));
    RegisterHasEffect(m, s, timeout, now);
    assert t in first.tickets;
    StepKeepsInv(m, Register(Some(s), timeout, now));
    WaitsOverRun(first, later, t);
    var after, matches := Run(first, later), (t: Ticket) => KeyMatch(t, opens);
    if i :| 0 <= i < |after.tickets| && after.tickets[i] == t && AloneMatches(after.tickets, at, i, matches) {
      var k := AloneInPruned(after.tickets, at, i, matches);
      OnlyMatchIsUnique(Prune(after.tickets, at), k, matches);
    }
  }

  /** After a registration, a claim or a prune no expired pending ticket is left, but for one that was just
      registered with no time to live. */
  lemma ExpiredGo(m: Manager, e: Event, t: Ticket)
    requires Inv(m) && Timed(e) && t in Step(m, e).tickets && !t.claimed && !(e.Register? && e.session.None?)
    ensures e.now < t.expiresAt || (e.Register? && t == Ticket(e.session.value, false, 0, e.now + e.timeout))
  {
    match e
    case Register(session, timeout, now) => RegisterHasEffect(m, session.value, timeout, now);
    case ClaimPlaintext(_, now) => ClaimHasEffect(m.tickets, now, Match(e));
    case ClaimEncrypted(_, _, now) => ClaimHasEffect(m.tickets, now, Match(e));
    case PruneNow(now) => PruneIsAlive(m.tickets, now);
  }

  /** A release gives one claim back; the last one makes the ticket pending until the new deadline, from
      which on the same holds of it. */
  lemma ReleaseHasEffect(m: Manager, i: nat, timeout: int, now: int)
    requires Inv(m) && i < |m.tickets| && forall j :: 0 <= j < i ==> m.tickets[j].session.id != m.tickets[i].session.id
    ensures var t, m' := m.tickets[i], Step(m, Release(m.tickets[i].session.id, timeout, now));
      m' == if !t.claimed then m
            else m.(tickets := m.tickets[i :=
              if t.claimCount == 1 then Ticket(t.session, false, 0, now + timeout)
              else Ticket(t.session, true, t.claimCount - 1, t.expiresAt)])
  {
  }
}
