/** What the ticket manager keeps over every run. */
module TicketRuns {
  import opened Common
  import opened LaunchTickets

  datatype Event =
    | Register(session: Option<Session>, timeout: int, now: int)
    | ClaimPlaintext(address: string, now: int)
    | ClaimEncrypted(address: string, opens: map<Key, Plaintext>, now: int)
    | Release(id: SessionId, timeout: int, now: int)
    | Erase(id: SessionId)
    | PruneNow(now: int)
    | Clear

  ghost function Match(e: Event): Ticket -> bool
    requires e.ClaimPlaintext? || e.ClaimEncrypted?
  {
    if e.ClaimPlaintext? then (t: Ticket) => PlainMatch(t, e.address) else (t: Ticket) => KeyMatch(t, e.opens)
  }

  ghost function Step(m: Manager, e: Event): Manager {
    match e
    case Register(session, timeout, now) =>
      if session.None? then m else Registered(m, session.value, timeout, now)
    case ClaimPlaintext(_, now) => m.(tickets := Claimed(Prune(m.tickets, now), Match(e)))
    case ClaimEncrypted(_, _, now) => m.(tickets := Claimed(Prune(m.tickets, now), Match(e)))
    case Release(id, timeout, now) => Released(m, id, timeout, now)
    case Erase(id) => m.(tickets := Without(m.tickets, id))
    case PruneNow(now) => m.(tickets := Prune(m.tickets, now))
    case Clear => m.(tickets := [])
  }

  ghost function Run(m: Manager, events: seq<Event>): Manager {
    if events == [] then m else Step(Run(m, events[..|events| - 1]), events[|events| - 1])
  }

  // ---------------------------------------------------------------- one ticket a client, bounded numbers

  /** The two sessions belong to one known client. */
  predicate Clash(a: Session, b: Session) {
    (a.certUuid != "" && a.certUuid == b.certUuid) ||
    (HasLegacyIdentity(a) && HasLegacyIdentity(b) && a.uniqueId == b.uniqueId && a.peer == b.peer)
  }

  ghost predicate NoClash(ts: seq<Ticket>) {
    forall i, j :: 0 <= i < j < |ts| ==> !Clash(ts[i].session, ts[j].session)
  }

  ghost predicate WithinLimits(m: Manager) {
    && m.globalLimit > 0 && m.perClientLimit > 0
    && |m.tickets| <= m.globalLimit
    && forall peer :: peer != "" ==> PeerCount(m.tickets, peer) <= m.perClientLimit
  }

  /** A claim count is positive exactly for claimed tickets. */
  ghost predicate CountsMatch(ts: seq<Ticket>) {
    forall i :: 0 <= i < |ts| ==> (ts[i].claimed <==> ts[i].claimCount > 0)
  }

  ghost predicate Inv(m: Manager) {
    WithinLimits(m) && NoClash(m.tickets) && CountsMatch(m.tickets)
  }

  lemma {:induction false} PruneMembers(ts: seq<Ticket>, now: int)
    ensures forall t :: t in Prune(ts, now) <==> t in ts && Survives(t, now)
  {
    if ts == [] {
    } else {
      PruneMembers(ts[1..], now);
      assert ts == [ts[0]] + ts[1..];
    }
  }

  lemma {:induction false} PrunePeers(ts: seq<Ticket>, now: int, peer: string)
    ensures |Prune(ts, now)| <= |ts|
    ensures PeerCount(Prune(ts, now), peer) <= PeerCount(ts, peer)
  {
    if ts == [] {
    } else {
      PrunePeers(ts[1..], now, peer);
      if Survives(ts[0], now) {
        assert Prune(ts, now)[1..] == Prune(ts[1..], now);
      } else {
        assert Prune(ts, now) == Prune(ts[1..], now);
      }
    }
  }

  lemma {:induction false} PruneKeepsApart(ts: seq<Ticket>, now: int)
    requires NoClash(ts)
    ensures NoClash(Prune(ts, now))
  {
    if ts == [] {
    } else {
      PruneKeepsApart(ts[1..], now);
      if Survives(ts[0], now) {
        PruneMembers(ts[1..], now);
        HeadClashesWithNone(ts, Prune(ts[1..], now));
      } else {
        assert Prune(ts, now) == Prune(ts[1..], now);
      }
    }
  }

  lemma MembersMatch(ts: seq<Ticket>, rest: seq<Ticket>)
    requires CountsMatch(ts) && forall t :: t in rest ==> t in ts
    ensures CountsMatch(rest)
  {
    forall i | 0 <= i < |rest| ensures rest[i].claimed <==> rest[i].claimCount > 0 {
      assert rest[i] in ts;
    }
  }

  lemma PruneKeeps(ts: seq<Ticket>, now: int)
    ensures |Prune(ts, now)| <= |ts|
    ensures forall peer :: PeerCount(Prune(ts, now), peer) <= PeerCount(ts, peer)
    ensures forall t :: t in Prune(ts, now) <==> t in ts && Survives(t, now)
    ensures NoClash(ts) ==> NoClash(Prune(ts, now))
    ensures CountsMatch(ts) ==> CountsMatch(Prune(ts, now))
  {
    PruneMembers(ts, now);
    PrunePeers(ts, now, "");
    forall peer ensures PeerCount(Prune(ts, now), peer) <= PeerCount(ts, peer) {
      PrunePeers(ts, now, peer);
    }
    if NoClash(ts) {
      PruneKeepsApart(ts, now);
    }
    if CountsMatch(ts) {
      MembersMatch(ts, Prune(ts, now));
    }
  }

  lemma HeadClashesWithNone(ts: seq<Ticket>, rest: seq<Ticket>)
    requires ts != [] && NoClash(ts) && NoClash(rest) && forall t :: t in rest ==> t in ts[1..]
    ensures NoClash([ts[0]] + rest)
  {
    forall j | 0 <= j < |rest| ensures !Clash(ts[0].session, rest[j].session) {
      assert rest[j] in ts[1..];
      var k :| 0 <= k < |ts[1..]| && ts[1..][k] == rest[j];
      assert ts[k + 1] == rest[j];
    }
  }

  lemma {:induction false} WithoutMembers(ts: seq<Ticket>, id: SessionId)
    ensures forall t :: t in Without(ts, id) <==> t in ts && t.session.id != id
  {
    if ts == [] {
    } else {
      WithoutMembers(ts[1..], id);
      assert ts == [ts[0]] + ts[1..];
    }
  }

  lemma {:induction false} WithoutPeers(ts: seq<Ticket>, id: SessionId, peer: string)
    ensures |Without(ts, id)| <= |ts|
    ensures PeerCount(Without(ts, id), peer) <= PeerCount(ts, peer)
  {
    if ts == [] {
    } else {
      WithoutPeers(ts[1..], id, peer);
      if ts[0].session.id != id {
        assert Without(ts, id)[1..] == Without(ts[1..], id);
      } else {
        assert Without(ts, id) == Without(ts[1..], id);
      }
    }
  }

  lemma {:induction false} WithoutKeepsApart(ts: seq<Ticket>, id: SessionId)
    requires NoClash(ts)
    ensures NoClash(Without(ts, id))
  {
    if ts == [] {
    } else {
      WithoutKeepsApart(ts[1..], id);
      if ts[0].session.id != id {
        WithoutMembers(ts[1..], id);
        HeadClashesWithNone(ts, Without(ts[1..], id));
      } else {
        assert Without(ts, id) == Without(ts[1..], id);
      }
    }
  }

  lemma WithoutKeeps(ts: seq<Ticket>, id: SessionId)
    ensures |Without(ts, id)| <= |ts|
    ensures forall peer :: PeerCount(Without(ts, id), peer) <= PeerCount(ts, peer)
    ensures forall t :: t in Without(ts, id) <==> t in ts && t.session.id != id
    ensures NoClash(ts) ==> NoClash(Without(ts, id))
    ensures CountsMatch(ts) ==> CountsMatch(Without(ts, id))
  {
    WithoutMembers(ts, id);
    WithoutPeers(ts, id, "");
    forall peer ensures PeerCount(Without(ts, id), peer) <= PeerCount(ts, peer) {
      WithoutPeers(ts, id, peer);
    }
    if NoClash(ts) {
      WithoutKeepsApart(ts, id);
    }
    if CountsMatch(ts) {
      MembersMatch(ts, Without(ts, id));
    }
  }

  /** The client's session is replaced by another of the same client, or left as it is. */
  predicate SameProfile(a: Session, b: Session) {
    a == b || (SameClient(a, b) && (b.certUuid != "" || HasLegacyIdentity(b)))
  }

  lemma ProfileDecides(a: Session, b: Session)
    requires SameProfile(a, b)
    ensures forall c :: Clash(a, c) <==> Clash(b, c)
    ensures forall c :: Clash(c, a) <==> Clash(c, b)
    ensures a.certUuid == b.certUuid && (a.certUuid == "" ==> a.peer == b.peer)
  {
  }

  lemma {:induction false} UpdateKeepsPeers(ts: seq<Ticket>, i: nat, t: Ticket, peer: string)
    requires i < |ts| && SameProfile(ts[i].session, t.session)
    ensures PeerCount(ts[i := t], peer) == PeerCount(ts, peer)
  {
    ProfileDecides(ts[i].session, t.session);
    if i == 0 {
      assert ts[i := t][1..] == ts[1..];
    } else {
      assert ts[i := t][1..] == ts[1..][i - 1 := t];
      UpdateKeepsPeers(ts[1..], i - 1, t, peer);
    }
  }

  lemma UpdateKeepsInv(m: Manager, i: nat, t: Ticket)
    requires Inv(m) && i < |m.tickets| && SameProfile(m.tickets[i].session, t.session)
    requires t.claimed <==> t.claimCount > 0
    ensures Inv(m.(tickets := m.tickets[i := t]))
  {
    ProfileDecides(m.tickets[i].session, t.session);
    var updated := m.tickets[i := t];
    forall peer | peer != "" ensures PeerCount(updated, peer) <= m.perClientLimit {
      UpdateKeepsPeers(m.tickets, i, t, peer);
    }
  }

  lemma {:induction false} AppendPeerCount(ts: seq<Ticket>, t: Ticket, peer: string)
    ensures PeerCount(ts + [t], peer) ==
            PeerCount(ts, peer) + if t.session.certUuid == "" && t.session.peer == peer then 1 else 0
  {
    if ts == [] {
      assert ts + [t] == [t] && [t][1..] == [];
    } else {
      assert (ts + [t])[1..] == ts[1..] + [t];
      AppendPeerCount(ts[1..], t, peer);
    }
  }

  lemma PruneKeepsInv(m: Manager, now: int)
    requires Inv(m)
    ensures Inv(m.(tickets := Prune(m.tickets, now)))
  {
    PruneKeeps(m.tickets, now);
  }

  lemma AcceptKeepsInv(m: Manager, t: Ticket)
    requires Inv(m) && |m.tickets| < m.globalLimit && !t.claimed && t.claimCount == 0
    requires forall i :: 0 <= i < |m.tickets| ==> !SameClient(m.tickets[i].session, t.session)
    requires t.session.certUuid == "" && t.session.peer != "" ==>
               PeerCount(m.tickets, t.session.peer) < m.perClientLimit
    ensures Inv(m.(tickets := m.tickets + [t]))
  {
    forall peer | peer != "" ensures PeerCount(m.tickets + [t], peer) <= m.perClientLimit {
      AppendPeerCount(m.tickets, t, peer);
    }
  }

  lemma RegisterKeepsInv(m: Manager, s: Session, timeout: int, now: int)
    requires Inv(m)
    ensures Inv(Registered(m, s, timeout, now))
  {
    PruneKeepsInv(m, now);
    var live := m.(tickets := Prune(m.tickets, now));
    var i := FindClient(live.tickets, s);
    match RegisterOutcome(m, s, now)
    case Accepted => AcceptKeepsInv(live, Pending(s, now + timeout));
    case Replaced => UpdateKeepsInv(live, i, Pending(s, now + timeout));
    case _ =>
  }

  lemma ClaimKeepsInv(m: Manager, match_: Ticket -> bool)
    requires Inv(m)
    ensures Inv(m.(tickets := Claimed(m.tickets, match_)))
  {
    if i :| OnlyMatch(m.tickets, i, match_) {
      OnlyMatchIsUnique(m.tickets, i, match_);
      UpdateKeepsInv(m, i, Claim(m.tickets[i]));
    }
  }

  lemma StepKeepsInv(m: Manager, e: Event)
    requires Inv(m)
    ensures Inv(Step(m, e))
  {
    match e
    case Register(session, timeout, now) =>
      if session.Some? {
        RegisterKeepsInv(m, session.value, timeout, now);
      }
    case ClaimPlaintext(_, now) =>
      PruneKeepsInv(m, now);
      ClaimKeepsInv(m.(tickets := Prune(m.tickets, now)), Match(e));
    case ClaimEncrypted(_, _, now) =>
      PruneKeepsInv(m, now);
      ClaimKeepsInv(m.(tickets := Prune(m.tickets, now)), Match(e));
    case Release(id, timeout, now) =>
      var i := FindId(m.tickets, id);
      if i < |m.tickets| && m.tickets[i].claimed {
        UpdateKeepsInv(m, i, Released(m, id, timeout, now).tickets[i]);
      }
    case Erase(id) => WithoutKeeps(m.tickets, id);
    case PruneNow(now) => PruneKeepsInv(m, now);
    case Clear =>
  }

  /** Over every run: never more tickets than the global limit, at most one per known client, legacy
      tickets per address within the per-client limit, and a ticket is claimed exactly while its claim
      count is positive. */
  lemma {:induction false} ReachableManagersAreBounded(m: Manager, events: seq<Event>)
    requires m.tickets == [] && m.globalLimit > 0 && m.perClientLimit > 0
    ensures Inv(Run(m, events))
    ensures Run(m, events).globalLimit == m.globalLimit && Run(m, events).perClientLimit == m.perClientLimit
  {
    if events == [] {
    } else {
      ReachableManagersAreBounded(m, events[..|events| - 1]);
      StepKeepsInv(Run(m, events[..|events| - 1]), events[|events| - 1]);
    }
  }

  // ---------------------------------------------------------------- claimed tickets are safe

  ghost predicate StillClaimed(ts: seq<Ticket>, t: Ticket) {
    exists j :: 0 <= j < |ts| && ts[j].session == t.session && ts[j].claimed && ts[j].claimCount >= t.claimCount
  }

  lemma UpdateElsewhere(ts: seq<Ticket>, i: nat, t': Ticket, t: Ticket)
    requires i < |ts| && t in ts && t.claimed
    requires ts[i] == t ==> t'.session == t.session && t'.claimed && t'.claimCount >= t.claimCount
    ensures StillClaimed(ts[i := t'], t)
  {
    var j :| 0 <= j < |ts| && ts[j] == t;
    assert ts[i := t'][j] == if j == i then t' else t;
  }

  /** Neither expiry nor any registration or claim removes or replaces a claimed ticket: only its own
      release, its erasure or a clear can. */
  lemma ClaimedTicketIsSafe(m: Manager, e: Event, t: Ticket)
    requires t in m.tickets && t.claimed
    requires e != Clear && e != Erase(t.session.id) && !(e.Release? && e.id == t.session.id)
    ensures StillClaimed(Step(m, e).tickets, t)
  {
    match e
    case Register(session, timeout, now) =>
      PruneKeeps(m.tickets, now);
      if session.Some? {
        var live, s := Prune(m.tickets, now), session.value;
        var i := FindClient(live, s);
        match RegisterOutcome(m, s, now)
        case Accepted =>
          var j :| 0 <= j < |live| && live[j] == t;
          assert (live + [Pending(s, now + timeout)])[j] == t;
        case Replaced => UpdateElsewhere(live, i, Pending(s, now + timeout), t);
        case _ =>
      }
    case ClaimPlaintext(_, now) => ClaimKeepsClaimed(m, now, Match(e), t);
    case ClaimEncrypted(_, _, now) => ClaimKeepsClaimed(m, now, Match(e), t);
    case Release(id, timeout, now) =>
      var i := FindId(m.tickets, id);
      if i < |m.tickets| && m.tickets[i].claimed {
        UpdateElsewhere(m.tickets, i, Released(m, id, timeout, now).tickets[i], t);
      }
    case Erase(id) => WithoutKeeps(m.tickets, id);
    case PruneNow(now) => PruneKeeps(m.tickets, now);
    case Clear =>
  }

  lemma ClaimKeepsClaimed(m: Manager, now: int, match_: Ticket -> bool, t: Ticket)
    requires t in m.tickets && t.claimed
    ensures StillClaimed(Claimed(Prune(m.tickets, now), match_), t)
  {
    var live := Prune(m.tickets, now);
    PruneKeeps(m.tickets, now);
    if i :| OnlyMatch(live, i, match_) {
      OnlyMatchIsUnique(live, i, match_);
      UpdateElsewhere(live, i, Claim(live[i]), t);
    }
  }

  // ---------------------------------------------------------------- claims against releases

  ghost function RegisteredIds(events: seq<Event>): set<int> {
    if events == [] then {}
    else
      var e := events[|events| - 1];
      RegisteredIds(events[..|events| - 1]) + if e.Register? && e.session.Some? then {e.session.value.id as int} else {}
  }

  ghost predicate DistinctIds(events: seq<Event>) {
    events != [] ==>
      var earlier, e := events[..|events| - 1], events[|events| - 1];
      DistinctIds(earlier) && (e.Register? && e.session.Some? ==> e.session.value.id as int !in RegisteredIds(earlier))
  }

  /** Whether the step claims, or releases, the session. */
  ghost predicate Claims(m: Manager, e: Event, id: int) {
    (e.ClaimPlaintext? || e.ClaimEncrypted?) &&
    var s := ClaimedSession(Prune(m.tickets, e.now), Match(e));
    s.Some? && s.value.id == id
  }

  ghost predicate Releases(m: Manager, e: Event, id: int) {
    e.Release? && e.id == id && ReleaseSucceeds(m, e.id)
  }

  /** Claims less releases of a session over the run. */
  ghost function Balance(m: Manager, events: seq<Event>, id: int): int {
    if events == [] then 0
    else
      var before, e := Run(m, events[..|events| - 1]), events[|events| - 1];
      Balance(m, events[..|events| - 1], id) +
        (if Claims(before, e, id) then 1 else 0) - if Releases(before, e, id) then 1 else 0
  }

  ghost predicate IdsDistinct(ts: seq<Ticket>) {
    forall i, j :: 0 <= i < j < |ts| ==> ts[i].session.id != ts[j].session.id
  }

  lemma HeadIdIsDistinct(ts: seq<Ticket>, rest: seq<Ticket>)
    requires ts != [] && IdsDistinct(ts) && IdsDistinct(rest) && forall t :: t in rest ==> t in ts[1..]
    ensures IdsDistinct([ts[0]] + rest)
  {
    forall j | 0 <= j < |rest| ensures ts[0].session.id != rest[j].session.id {
      assert rest[j] in ts[1..];
      var k :| 0 <= k < |ts[1..]| && ts[1..][k] == rest[j];
      assert ts[k + 1] == rest[j];
    }
  }

  lemma {:induction false} PruneKeepsIds(ts: seq<Ticket>, now: int)
    requires IdsDistinct(ts)
    ensures IdsDistinct(Prune(ts, now))
  {
    if ts == [] {
    } else {
      PruneKeepsIds(ts[1..], now);
      PruneKeeps(ts[1..], now);
      if Survives(ts[0], now) {
        HeadIdIsDistinct(ts, Prune(ts[1..], now));
      } else {
        assert Prune(ts, now) == Prune(ts[1..], now);
      }
    }
  }

  lemma {:induction false} WithoutKeepsIds(ts: seq<Ticket>, id: SessionId)
    requires IdsDistinct(ts)
    ensures IdsDistinct(Without(ts, id))
  {
    if ts == [] {
    } else {
      WithoutKeepsIds(ts[1..], id);
      WithoutKeeps(ts[1..], id);
      if ts[0].session.id != id {
        HeadIdIsDistinct(ts, Without(ts[1..], id));
      } else {
        assert Without(ts, id) == Without(ts[1..], id);
      }
    }
  }

  /** Each ticket's claim count is its session's balance, and unknown sessions have none. */
  ghost predicate Balanced(ts: seq<Ticket>, ids: set<int>, balance: int -> int) {
    && IdsDistinct(ts) && CountsMatch(ts)
    && (forall i :: 0 <= i < |ts| ==> ts[i].session.id as int in ids && ts[i].claimCount == balance(ts[i].session.id))
    && (forall id :: id !in ids ==> balance(id) == 0)
  }

  lemma PruneKeepsBalanced(ts: seq<Ticket>, now: int, ids: set<int>, balance: int -> int)
    requires Balanced(ts, ids, balance)
    ensures Balanced(Prune(ts, now), ids, balance)
  {
    PruneKeeps(ts, now);
    PruneKeepsIds(ts, now);
    var live := Prune(ts, now);
    forall i | 0 <= i < |live| ensures live[i] in ts {
      assert live[i] in live;
    }
  }

  lemma ClaimBalances(m: Manager, e: Event, ids: set<int>, balance: int -> int)
    requires e.ClaimPlaintext? || e.ClaimEncrypted?
    requires Balanced(m.tickets, ids, balance)
    ensures Balanced(Step(m, e).tickets, ids, (id: int) => balance(id) + if Claims(m, e, id) then 1 else 0)
  {
    var live, match_ := Prune(m.tickets, e.now), Match(e);
    PruneKeepsBalanced(m.tickets, e.now, ids, balance);
    if i :| OnlyMatch(live, i, match_) {
      OnlyMatchIsUnique(live, i, match_);
      assert forall id :: Claims(m, e, id) <==> live[i].session.id == id;
    } else {
      assert forall id :: !Claims(m, e, id);
    }
  }

  lemma ReleaseBalances(m: Manager, e: Event, ids: set<int>, balance: int -> int)
    requires e.Release? && Balanced(m.tickets, ids, balance)
    ensures Balanced(Step(m, e).tickets, ids, (id: int) => balance(id) - if Releases(m, e, id) then 1 else 0)
  {
    var i := FindId(m.tickets, e.id);
    assert forall id :: Releases(m, e, id) ==> id == m.tickets[i].session.id;
  }

  lemma RegisterBalances(m: Manager, e: Event, ids: set<int>, balance: int -> int)
    requires e.Register? && e.session.Some? && e.session.value.id as int !in ids
    requires Balanced(m.tickets, ids, balance)
    ensures Balanced(Step(m, e).tickets, ids + {e.session.value.id as int}, balance)
  {
    PruneKeepsBalanced(m.tickets, e.now, ids, balance);
  }

  lemma EraseBalances(m: Manager, id: SessionId, ids: set<int>, balance: int -> int)
    requires Balanced(m.tickets, ids, balance)
    ensures Balanced(Without(m.tickets, id), ids, balance)
  {
    WithoutKeeps(m.tickets, id);
    WithoutKeepsIds(m.tickets, id);
    var rest := Without(m.tickets, id);
    forall i | 0 <= i < |rest| ensures rest[i] in m.tickets {
      assert rest[i] in rest;
    }
  }

  lemma BalancedCong(ts: seq<Ticket>, ids: set<int>, f: int -> int, g: int -> int)
    requires Balanced(ts, ids, f) && forall id :: f(id) == g(id)
    ensures Balanced(ts, ids, g)
  {
  }

  /** With session ids never reused, a ticket's claim count is the claims of its session less the
      releases; so it is claimed exactly while claims exceed releases. */
  lemma {:induction false} ClaimedWhileClaimsExceedReleases(m: Manager, events: seq<Event>)
    requires m.tickets == [] && DistinctIds(events)
    ensures Balanced(Run(m, events).tickets, RegisteredIds(events), id => Balance(m, events, id))
    ensures forall t :: t in Run(m, events).tickets ==> (t.claimed <==> Balance(m, events, t.session.id) > 0)
  {
    var f := (id: int) => Balance(m, events, id);
    if events == [] {
    } else {
      var earlier, e := events[..|events| - 1], events[|events| - 1];
      var before, ids, g := Run(m, earlier), RegisteredIds(earlier), (id: int) => Balance(m, earlier, id);
      ClaimedWhileClaimsExceedReleases(m, earlier);
      BalancedCong(before.tickets, ids, id => Balance(m, earlier, id), g);
      match e {
        case Register(session, _, now) =>
          if session.Some? {
            RegisterBalances(before, e, ids, g);
          }
        case ClaimPlaintext(_, _) => ClaimBalances(before, e, ids, g);
        case ClaimEncrypted(_, _, _) => ClaimBalances(before, e, ids, g);
        case Release(_, _, _) => ReleaseBalances(before, e, ids, g);
        case Erase(id) => EraseBalances(before, id, ids, g);
        case PruneNow(now) => PruneKeepsBalanced(before.tickets, now, ids, g);
        case Clear =>
      }
    }
    assert Balanced(Run(m, events).tickets, RegisteredIds(events), f);
  }
}
