/** Pending launch tickets: registration, claims by address or by key, release and expiry. */
module LaunchTickets {
  import opened Common

  type SessionId = uint32
  type Key = int
  type Plaintext = seq<int>

  /** What the manager reads of a launch session. Without a certificate id the client is a legacy one,
      known by its unique id and address; `cipher` is the key of an encrypted session. */
  datatype Session = Session(id: SessionId, certUuid: string, uniqueId: string, peer: string, cipher: Option<Key>)

  datatype Ticket = Ticket(session: Session, claimed: bool, claimCount: nat, expiresAt: int)

  datatype RegisterResult = Accepted | Replaced | GlobalLimit | ClientLimit | ClientBusy

  datatype Manager = Manager(tickets: seq<Ticket>, globalLimit: nat, perClientLimit: nat)

  predicate HasLegacyIdentity(s: Session) {
    s.certUuid == "" && s.uniqueId != "" && s.uniqueId != "unknown"
  }

  predicate SameClient(a: Session, b: Session) {
    (b.certUuid != "" && a.certUuid == b.certUuid) ||
    (a.certUuid == "" && HasLegacyIdentity(b) && a.uniqueId == b.uniqueId && a.peer == b.peer)
  }

  predicate Survives(t: Ticket, now: int) {
    t.claimed || now < t.expiresAt
  }

  function Prune(ts: seq<Ticket>, now: int): seq<Ticket> {
    if ts == [] then [] else (if Survives(ts[0], now) then [ts[0]] else []) + Prune(ts[1..], now)
  }

  function FindClient(ts: seq<Ticket>, s: Session): (i: nat)
    ensures i <= |ts| && (i < |ts| ==> SameClient(ts[i].session, s))
    ensures forall j :: 0 <= j < i ==> !SameClient(ts[j].session, s)
  {
    if ts == [] || SameClient(ts[0].session, s) then 0 else 1 + FindClient(ts[1..], s)
  }

  function FindId(ts: seq<Ticket>, id: SessionId): (i: nat)
    ensures i <= |ts| && (i < |ts| ==> ts[i].session.id == id)
    ensures forall j :: 0 <= j < i ==> ts[j].session.id != id
  {
    if ts == [] || ts[0].session.id == id then 0 else 1 + FindId(ts[1..], id)
  }

  function PeerCount(ts: seq<Ticket>, peer: string): nat {
    if ts == [] then 0
    else (if ts[0].session.certUuid == "" && ts[0].session.peer == peer then 1 else 0) + PeerCount(ts[1..], peer)
  }

  function Without(ts: seq<Ticket>, id: SessionId): seq<Ticket> {
    if ts == [] then [] else (if ts[0].session.id == id then [] else [ts[0]]) + Without(ts[1..], id)
  }

  function Pending(s: Session, expiresAt: int): Ticket {
    Ticket(s, false, 0, expiresAt)
  }

  function Claim(t: Ticket): Ticket {
    t.(claimed := true, claimCount := t.claimCount + 1)
  }

  function RegisterOutcome(m: Manager, s: Session, now: int): RegisterResult {
    var live := Prune(m.tickets, now);
    var i := FindClient(live, s);
    if i < |live| then (if live[i].claimed then ClientBusy else Replaced)
    else if s.certUuid == "" && s.peer != "" && PeerCount(live, s.peer) >= m.perClientLimit then ClientLimit
    else if |live| >= m.globalLimit then GlobalLimit
    else Accepted
  }

  function Registered(m: Manager, s: Session, timeout: int, now: int): Manager {
    var live := Prune(m.tickets, now);
    match RegisterOutcome(m, s, now)
    case Accepted => m.(tickets := live + [Pending(s, now + timeout)])
    case Replaced => m.(tickets := live[FindClient(live, s) := Pending(s, now + timeout)])
    case _ => m.(tickets := live)
  }

  // ---------------------------------------------------------------- claims

  predicate PlainMatch(t: Ticket, address: string) {
    address != "" && t.session.cipher.None? && t.session.peer == address
  }

  /** `opens` maps each key under which the message authenticates to what it decrypts to. */
  predicate KeyMatch(t: Ticket, opens: map<Key, Plaintext>) {
    t.session.cipher.Some? && t.session.cipher.value in opens
  }

  ghost predicate OnlyMatch(ts: seq<Ticket>, i: int, match_: Ticket -> bool) {
    0 <= i < |ts| && match_(ts[i]) && forall j :: 0 <= j < |ts| && j != i ==> !match_(ts[j])
  }

  /** Claims the one ticket that matches; with none or several, nothing but expiry happens. */
  ghost function Claimed(ts: seq<Ticket>, match_: Ticket -> bool): seq<Ticket> {
    if exists i :: OnlyMatch(ts, i, match_) then
      var i :| OnlyMatch(ts, i, match_);
      ts[i := Claim(ts[i])]
    else ts
  }

  ghost function ClaimedSession(ts: seq<Ticket>, match_: Ticket -> bool): Option<Session> {
    if exists i :: OnlyMatch(ts, i, match_) then
      var i :| OnlyMatch(ts, i, match_);
      Some(ts[i].session)
    else None
  }

  lemma OnlyMatchIsUnique(ts: seq<Ticket>, i: int, match_: Ticket -> bool)
    requires OnlyMatch(ts, i, match_)
    ensures Claimed(ts, match_) == ts[i := Claim(ts[i])] && ClaimedSession(ts, match_) == Some(ts[i].session)
  {
    var k :| OnlyMatch(ts, k, match_);
    assert forall k :: OnlyMatch(ts, k, match_) ==> k == i;
  }

  function Released(m: Manager, id: SessionId, timeout: int, now: int): Manager {
    var i := FindId(m.tickets, id);
    if i == |m.tickets| || !m.tickets[i].claimed then m
    else
      var t := m.tickets[i];
      var count := if t.claimCount > 0 then t.claimCount - 1 else 0;
      m.(tickets := m.tickets[i :=
        if count == 0 then t.(claimCount := 0, claimed := false, expiresAt := now + timeout)
        else t.(claimCount := count)])
  }

  function ReleaseSucceeds(m: Manager, id: SessionId): bool {
    var i := FindId(m.tickets, id);
    i < |m.tickets| && m.tickets[i].claimed
  }

  class LaunchSessionManager {
    var tickets: seq<Ticket>
    const globalLimit: nat
    const perClientLimit: nat

    ghost function State(): Manager
      reads this
    {
      Manager(tickets, globalLimit, perClientLimit)
    }

    /** A claim count is positive exactly for claimed tickets. */
    ghost predicate Valid()
      reads this
    {
      globalLimit > 0 && perClientLimit > 0 &&
      forall t :: t in tickets ==> (t.claimed <==> t.claimCount > 0)
    }

    constructor (globalLimit: nat, perClientLimit: nat)
      ensures Valid() && tickets == []
      ensures this.globalLimit == Max(1, globalLimit) && this.perClientLimit == Max(1, perClientLimit)
    {
      this.globalLimit := Max(1, globalLimit);
      this.perClientLimit := Max(1, perClientLimit);
      tickets := [];
    }

    /** prune_locked: expired pending tickets go, the others keep their order. */
    method PruneLocked(now: int)
      requires Valid()
      modifies this
      ensures Valid() && tickets == Prune(old(tickets), now)
    {
      var kept := [];
      var i := 0;
      assert tickets[0..] == tickets;
      while i < |tickets|
        invariant i <= |tickets| && kept + Prune(tickets[i..], now) == Prune(tickets, now)
        invariant forall t :: t in kept ==> t in tickets
      {
        assert tickets[i..][1..] == tickets[i + 1..];
        if Survives(tickets[i], now) {
          kept := kept + [tickets[i]];
        }
        i := i + 1;
      }
      tickets := kept;
    }

    method RegisterSession(session: Option<Session>, timeout: int, now: int) returns (result: RegisterResult)
      requires Valid()
      modifies this
      ensures Valid()
      ensures session.None? ==> result == GlobalLimit && tickets == old(tickets)
      ensures session.Some? ==>
                && result == RegisterOutcome(old(State()), session.value, now)
                && State() == Registered(old(State()), session.value, timeout, now)
    {
      if session.None? {
        return GlobalLimit;
      }
      var s := session.value;
      PruneLocked(now);
      if s.certUuid != "" || (s.uniqueId != "" && s.uniqueId != "unknown") {
        var i := FindClient(tickets, s);
        if i < |tickets| {
          if tickets[i].claimed {
            return ClientBusy;
          }
          tickets := tickets[i := Pending(s, now + timeout)];
          return Replaced;
        }
      }
      if s.certUuid == "" && s.peer != "" {
        if PeerCount(tickets, s.peer) >= perClientLimit {
          return ClientLimit;
        }
      }
      if |tickets| >= globalLimit {
        return GlobalLimit;
      }
      tickets := tickets + [Pending(s, now + timeout)];
      return Accepted;
    }

    method ClaimPlaintext(address: string, now: int) returns (session: Option<Session>)
      requires Valid()
      modifies this
      ensures Valid()
      ensures var live, match_ := Prune(old(tickets), now), (t: Ticket) => PlainMatch(t, address);
        tickets == Claimed(live, match_) && session == ClaimedSession(live, match_)
    {
      PruneLocked(now);
      ghost var match_ := (t: Ticket) => PlainMatch(t, address);
      if address == "" {
        return None;
      }
      var found: Option<nat> := None;
      var i := 0;
      while i < |tickets|
        invariant i <= |tickets|
        invariant found.None? ==> forall j :: 0 <= j < i ==> !match_(tickets[j])
        invariant found.Some? ==> found.value < i && match_(tickets[found.value])
        invariant found.Some? ==> forall j :: 0 <= j < i && j != found.value ==> !match_(tickets[j])
      {
        var t := tickets[i];
        if t.session.cipher.None? && t.session.peer == address {
          if found.Some? {
            return None;
          }
          found := Some(i);
        }
        i := i + 1;
      }
      if found.None? {
        return None;
      }
      OnlyMatchIsUnique(tickets, found.value, match_);
      tickets := tickets[found.value := Claim(tickets[found.value])];
      return Some(tickets[found.value].session);
    }

    /** Candidates whose address matches are tried first, the others in a second pass. The contract does
        not mention the address: each encrypted ticket is tried exactly once, and the one whose key
        authenticates the message is claimed, provided it is the only one. */
    method ClaimEncrypted(address: string, opens: map<Key, Plaintext>, now: int)
      returns (claim: Option<(Session, Plaintext)>)
      requires Valid()
      modifies this
      ensures Valid()
      ensures var live, match_ := Prune(old(tickets), now), (t: Ticket) => KeyMatch(t, opens);
        && tickets == Claimed(live, match_)
        && (claim.None? <==> ClaimedSession(live, match_).None?)
        && (claim.Some? ==>
              && ClaimedSession(live, match_) == Some(claim.value.0)
              && claim.value.0.cipher.Some? && claim.value.0.cipher.value in opens
              && claim.value.1 == opens[claim.value.0.cipher.value])
    {
      PruneLocked(now);
      ghost var match_ := (t: Ticket) => KeyMatch(t, opens);
      var found: Option<nat> := None;
      var plaintext: Plaintext := [];
      var pass := 0;
      while pass < 2
        invariant 0 <= pass <= 2
        invariant found.None? ==> forall j :: 0 <= j < |tickets| && Tried(tickets, j, address, pass, 0) ==> !match_(tickets[j])
        invariant found.Some? ==> FoundAlone(tickets, found.value, address, pass, 0, match_)
        invariant found.Some? ==> plaintext == opens[tickets[found.value].session.cipher.value]
      {
        var i := 0;
        while i < |tickets|
          invariant i <= |tickets|
          invariant found.None? ==> forall j :: 0 <= j < |tickets| && Tried(tickets, j, address, pass, i) ==> !match_(tickets[j])
          invariant found.Some? ==> FoundAlone(tickets, found.value, address, pass, i, match_)
          invariant found.Some? ==> plaintext == opens[tickets[found.value].session.cipher.value]
        {
          var t := tickets[i];
          if t.session.cipher.Some? && (pass == 0) == RouteMatches(t, address) && t.session.cipher.value in opens {
            if found.Some? {
              return None;
            }
            found := Some(i);
            plaintext := opens[t.session.cipher.value];
          }
          i := i + 1;
        }
        pass := pass + 1;
      }
      if found.None? {
        return None;
      }
      OnlyMatchIsUnique(tickets, found.value, match_);
      tickets := tickets[found.value := Claim(tickets[found.value])];
      return Some((tickets[found.value].session, plaintext));
    }

    method Release(id: SessionId, timeout: int, now: int) returns (ok: bool)
      requires Valid()
      modifies this
      ensures Valid()
      ensures ok == ReleaseSucceeds(old(State()), id)
      ensures State() == Released(old(State()), id, timeout, now)
    {
      var i := FindId(tickets, id);
      if i == |tickets| || !tickets[i].claimed {
        return false;
      }
      var t := tickets[i];
      assert t in tickets;
      t := t.(claimCount := t.claimCount - 1);
      if t.claimCount == 0 {
        t := t.(claimed := false);
        t := t.(expiresAt := now + timeout);
      }
      tickets := tickets[i := t];
      return true;
    }

    /** Also what activate does: the ticket has served its purpose. */
    method Erase(id: SessionId) returns (erased: bool)
      requires Valid()
      modifies this
      ensures Valid() && tickets == Without(old(tickets), id)
      ensures erased <==> |tickets| != |old(tickets)|
    {
      var kept := [];
      var i := 0;
      assert tickets[0..] == tickets;
      while i < |tickets|
        invariant i <= |tickets| && kept + Without(tickets[i..], id) == Without(tickets, id)
        invariant forall t :: t in kept ==> t in tickets
      {
        assert tickets[i..][1..] == tickets[i + 1..];
        if tickets[i].session.id != id {
          kept := kept + [tickets[i]];
        }
        i := i + 1;
      }
      var oldSize := |tickets|;
      tickets := kept;
      erased := |tickets| != oldSize;
    }

    method Clear()
      requires Valid()
      modifies this
      ensures Valid() && tickets == []
    {
      tickets := [];
    }
  }

  predicate RouteMatches(t: Ticket, address: string) {
    address != "" && t.session.peer == address
  }

  /** Ticket `j` has been looked at by the time pass `pass` reaches `i`. */
  predicate Tried(ts: seq<Ticket>, j: int, address: string, pass: int, i: int)
    requires 0 <= j < |ts|
  {
    if RouteMatches(ts[j], address) then pass > 0 || j < i else pass > 1 || (pass == 1 && j < i)
  }

  ghost predicate FoundAlone(ts: seq<Ticket>, found: int, address: string, pass: int, i: int, match_: Ticket -> bool) {
    && 0 <= found < |ts| && Tried(ts, found, address, pass, i) && match_(ts[found])
    && forall j :: 0 <= j < |ts| && Tried(ts, j, address, pass, i) && j != found ==> !match_(ts[j])
  }
}
