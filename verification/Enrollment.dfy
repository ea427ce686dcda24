/**
 Enrolling agents with a one-time PIN. The PIN is checked in one transaction and claimed in a
 later one; administrators may replace or revoke the PIN, and delete nodes, in between.
 */
module Enrollment {
  import opened Basics

  datatype Role = Monitor | Probe

  datatype Pin = Pin(
    hash: string, claimedInstall: string, claimedToken: string,
    createdAt: int, expiresAt: int, usedAt: Option<int>, revokedAt: Option<int>)

  datatype Credential = Credential(nodeID: string, tokenID: string, tokenHash: string)

  /** The three tables: PINs by id, credentials by their unique install id, node roles by node id. */
  datatype Tables = Tables(pins: map<string, Pin>, credentials: map<string, Credential>, nodes: map<string, Role>)

  /** What an enrollment transaction is given; an empty PIN id stands for the permanent PIN. */
  datatype Params = Params(
    install: string, tokenID: string, tokenHash: string, role: Role, nodeID: string, pinID: string, now: int)

  /** A creation may go unreported: the new node is read back after the commit, and that can fail. */
  datatype Outcome = Created(reported: bool) | Existing(nodeID: string) | Conflict | PinUnavailable | StoreError

  // ----- the transactions

  predicate Claimable(t: Tables, p: Params) {
    && p.pinID in t.pins
    && var pin := t.pins[p.pinID];
       && pin.revokedAt.None? && pin.expiresAt > p.now
       && (pin.claimedInstall == "" || (pin.claimedInstall == p.install && pin.claimedToken == p.tokenID))
  }

  function Claimed(pin: Pin, p: Params): Pin {
    pin.(claimedInstall := p.install, claimedToken := p.tokenID,
         usedAt := if pin.usedAt.Some? then pin.usedAt else Some(p.now))
  }

  predicate TokenTaken(t: Tables, tokenID: string) {
    exists i :: i in t.credentials && t.credentials[i].tokenID == tokenID
  }

  /** How the database fares with the statements that complete an enrollment, up to the commit and after it. */
  datatype Db = Works | FailsBeforeCommit | FailsAfterCommit

  /**
   The enrollment transaction. Completing it means reading the configuration of a known identity, or
   inserting the rows of a new one, then committing, and reading a new node back.
   */
  function EnrollNode(t: Tables, p: Params, db: Db): (Tables, Outcome) {
    if p.install in t.credentials then
      var existing := t.credentials[p.install];
      if existing.tokenHash != p.tokenHash then (t, Conflict)
      else if existing.nodeID !in t.nodes then (t, StoreError)
      else if t.nodes[existing.nodeID] != p.role then (t, Conflict)
      else if db.FailsBeforeCommit? then (t, StoreError)
      else (t, Existing(existing.nodeID))
    else if p.pinID != "" && !Claimable(t, p) then (t, PinUnavailable)
    else if p.nodeID in t.nodes || TokenTaken(t, p.tokenID) || db.FailsBeforeCommit? then (t, StoreError)
    else
      (Tables(if p.pinID != "" then t.pins[p.pinID := Claimed(t.pins[p.pinID], p)] else t.pins,
              t.credentials[p.install := Credential(p.nodeID, p.tokenID, p.tokenHash)],
              t.nodes[p.nodeID := p.role]),
       Created(db.Works?))
  }

  function RevokedAll(pins: map<string, Pin>, now: int): map<string, Pin> {
    map id | id in pins :: if pins[id].revokedAt.None? then pins[id].(revokedAt := Some(now)) else pins[id]
  }

  function ReplacePin(t: Tables, id: string, hash: string, expiresAt: int, now: int, dbOk: bool): Tables {
    if id in t.pins || !dbOk then t
    else t.(pins := RevokedAll(t.pins, now)[id := Pin(hash, "", "", now, expiresAt, None, None)])
  }

  function RevokePin(t: Tables, id: string, now: int): Tables {
    if id in t.pins && t.pins[id].revokedAt.None? then t.(pins := t.pins[id := t.pins[id].(revokedAt := Some(now))])
    else t
  }

  /** Deleting a node removes its credential with it; a node that does not exist has none. */
  function DeleteNode(t: Tables, nodeID: string): Tables {
    t.(nodes := t.nodes - {nodeID},
       credentials := map i | i in t.credentials && t.credentials[i].nodeID != nodeID :: t.credentials[i])
  }

  predicate Usable(t: Tables, id: string, now: int) {
    id in t.pins && t.pins[id].revokedAt.None? && t.pins[id].expiresAt > now
  }

  /** The PIN row that the authorization query selects: the newest usable one. */
  predicate IsActivePin(t: Tables, id: string, now: int) {
    Usable(t, id, now) && forall other :: other in t.pins && Usable(t, other, now) ==>
        t.pins[other].createdAt <= t.pins[id].createdAt
  }

  // ----- the tables as the object that the server shares

  class Store {
    var pins: map<string, Pin>
    var credentials: map<string, Credential>
    var nodes: map<string, Role>

    ghost function Model(): Tables
      reads this
    {
      Tables(pins, credentials, nodes)
    }

    constructor ()
      ensures Model() == Tables(map[], map[], map[])
    {
      pins, credentials, nodes := map[], map[], map[];
    }

    method ReplaceTemporaryEnrollmentPIN(
      id: string, hash: string, expiresAt: int, now: int, dbOk: bool) returns (ok: bool)
      modifies this
      ensures Model() == ReplacePin(old(Model()), id, hash, expiresAt, now, dbOk)
      ensures ok <==> id !in old(pins) && dbOk
    {
      var before := pins;
      pins := RevokedAll(pins, now);
      ok := id !in pins && dbOk;
      if ok {
        pins := pins[id := Pin(hash, "", "", now, expiresAt, None, None)];
      } else {
        pins := before;
      }
    }

    method RevokeTemporaryEnrollmentPIN(id: string, now: int) returns (found: bool)
      modifies this
      ensures Model() == RevokePin(old(Model()), id, now)
      ensures found <==> id in old(pins) && old(pins)[id].revokedAt.None?
    {
      found := id in pins && pins[id].revokedAt.None?;
      if found {
        pins := pins[id := pins[id].(revokedAt := Some(now))];
      }
    }

    method ClaimTemporaryEnrollmentPIN(p: Params) returns (ok: bool)
      modifies this`pins
      ensures ok <==> Claimable(old(Model()), p)
      ensures pins == if ok then old(pins)[p.pinID := Claimed(old(pins)[p.pinID], p)] else old(pins)
    {
      if p.pinID !in pins { return false; }
      var pin := pins[p.pinID];
      if pin.revokedAt.Some? || pin.expiresAt <= p.now { return false; }
      if pin.claimedInstall != "" && (pin.claimedInstall != p.install || pin.claimedToken != p.tokenID) {
        return false;
      }
      pin := pin.(claimedInstall := p.install, claimedToken := p.tokenID);
      if pin.usedAt.None? {
        pin := pin.(usedAt := Some(p.now));
      }
      pins := pins[p.pinID := pin];
      ok := true;
    }

    method Enroll(p: Params, db: Db) returns (outcome: Outcome)
      modifies this
      ensures (Model(), outcome) == EnrollNode(old(Model()), p, db)
    {
      if p.install in credentials {
        var existing := credentials[p.install];
        if existing.tokenHash != p.tokenHash { return Conflict; }
        if existing.nodeID !in nodes { return StoreError; }
        if nodes[existing.nodeID] != p.role { return Conflict; }
        if db.FailsBeforeCommit? { return StoreError; }
        return Existing(existing.nodeID);
      }
      var before := pins;
      if p.pinID != "" {
        var claimed := ClaimTemporaryEnrollmentPIN(p);
        if !claimed { return PinUnavailable; }
      }
      if p.nodeID in nodes || TokenTaken(Tables(pins, credentials, nodes), p.tokenID) || db.FailsBeforeCommit? {
        pins := before;
        return StoreError;
      }
      nodes := nodes[p.nodeID := p.role];
      credentials := credentials[p.install := Credential(p.nodeID, p.tokenID, p.tokenHash)];
      outcome := Created(db.Works?);
    }

    method Delete(nodeID: string) returns (found: bool)
      modifies this
      ensures found <==> nodeID in old(nodes)
      ensures Model() == if found then DeleteNode(old(Model()), nodeID) else old(Model())
    {
      found := nodeID in nodes;
      if found {
        nodes := nodes - {nodeID};
        credentials := map i | i in credentials && credentials[i].nodeID != nodeID :: credentials[i];
      }
    }

    /** The newest PIN that is neither revoked nor expired. */
    method ActiveTemporaryEnrollmentPIN(now: int) returns (active: Option<string>)
      ensures active.Some? ==> IsActivePin(Model(), active.value, now)
      ensures active.None? ==> forall id :: !Usable(Model(), id, now)
    {
      active := None;
      var todo := pins.Keys;
      while todo != {}
        invariant todo <= pins.Keys
        invariant active.None? ==> forall id :: id in pins && id !in todo ==> !Usable(Model(), id, now)
        invariant active.Some? ==>
                    && Usable(Model(), active.value, now)
                    && forall id :: id in pins && id !in todo && Usable(Model(), id, now) ==>
                         pins[id].createdAt <= pins[active.value].createdAt
      {
        var id :| id in todo;
        if pins[id].revokedAt.None? && pins[id].expiresAt > now
           && (active.None? || pins[active.value].createdAt < pins[id].createdAt) {
          active := Some(id);
        }
        todo := todo - {id};
      }
    }
  }

  // ----- interleaved requests

  /** A node that some enrollment created, and the PIN it was created through. */
  datatype Creation = Creation(nodeID: string, pinID: string, install: string, tokenID: string)

  /** Tables, the requests that passed the PIN check and still have to enroll, and all creations so far. */
  datatype Protocol = Protocol(tables: Tables, inflight: map<nat, Params>, created: seq<Creation>)

  datatype Event =
    | Check(request: nat, params: Params)
    | Enroll(request: nat, db: Db)
    | Replace(id: string, hash: string, expiresAt: int, now: int, dbOk: bool)
    | Revoke(id: string, now: int)
    | Delete(nodeID: string)

  /** Requests carry a non-empty install id, ids of new nodes and PINs are not reused. */
  predicate Enabled(s: Protocol, e: Event) {
    match e
    case Check(request, p) =>
      && request !in s.inflight && p.install != ""
      && (p.pinID == "" || IsActivePin(s.tables, p.pinID, p.now))
    case Enroll(request, _) =>
      && request in s.inflight
      && (forall i :: 0 <= i < |s.created| ==> s.created[i].nodeID != s.inflight[request].nodeID)
    case Replace(id, _, _, _, _) => id != ""
    case Revoke(_, _) => true
    case Delete(_) => true
  }

  function Apply(s: Protocol, e: Event): Protocol
    requires Enabled(s, e)
  {
    match e
    case Check(request, p) => s.(inflight := s.inflight[request := p])
    case Enroll(request, db) =>
      var p := s.inflight[request];
      var (tables, outcome) := EnrollNode(s.tables, p, db);
      Protocol(tables, s.inflight - {request},
               if outcome.Created? then s.created + [Creation(p.nodeID, p.pinID, p.install, p.tokenID)] else s.created)
    case Replace(id, hash, expiresAt, now, dbOk) => s.(tables := ReplacePin(s.tables, id, hash, expiresAt, now, dbOk))
    case Revoke(id, now) => s.(tables := RevokePin(s.tables, id, now))
    case Delete(nodeID) => s.(tables := DeleteNode(s.tables, nodeID))
  }

  /** `run` is a list of states in which each follows from its predecessor by some enabled event. */
  ghost predicate IsRun(run: seq<Protocol>, events: seq<Event>) {
    && |run| == |events| + 1
    && forall i :: 0 <= i < |events| ==> Enabled(run[i], events[i]) && run[i + 1] == Apply(run[i], events[i])
  }

  const INITIAL := Protocol(Tables(map[], map[], map[]), map[], [])

  // ----- what every reachable state satisfies

  ghost predicate OneUnrevoked(t: Tables) {
    forall a, b :: a in t.pins && b in t.pins && t.pins[a].revokedAt.None? && t.pins[b].revokedAt.None? ==> a == b
  }

  ghost predicate UsedIffClaimed(t: Tables) {
    forall id :: id in t.pins ==> (t.pins[id].usedAt.Some? <==> t.pins[id].claimedInstall != "")
  }

  /** Credentials and nodes correspond one to one, and no token id is shared. */
  ghost predicate CredentialsMatchNodes(t: Tables) {
    && (forall i :: i in t.credentials ==> t.credentials[i].nodeID in t.nodes)
    && (forall n :: n in t.nodes ==> exists i :: i in t.credentials && t.credentials[i].nodeID == n)
    && (forall i, j :: i in t.credentials && j in t.credentials && i != j ==>
          t.credentials[i].nodeID != t.credentials[j].nodeID && t.credentials[i].tokenID != t.credentials[j].tokenID)
  }

  /** Whatever was created through a PIN carries the identity that the PIN was claimed by. */
  ghost predicate CreationsMatchClaims(s: Protocol) {
    forall k :: 0 <= k < |s.created| && s.created[k].pinID != "" ==>
      var c := s.created[k];
      && c.pinID in s.tables.pins && c.install != ""
      && s.tables.pins[c.pinID].claimedInstall == c.install
      && s.tables.pins[c.pinID].claimedToken == c.tokenID
  }

  /** A created node that still exists is still bound to the install that created it. */
  ghost predicate CreationsStayBound(s: Protocol) {
    forall k :: 0 <= k < |s.created| && s.created[k].nodeID in s.tables.nodes ==>
      var c := s.created[k];
      c.install in s.tables.credentials && s.tables.credentials[c.install].nodeID == c.nodeID
  }

  ghost predicate Invariant(s: Protocol) {
    && OneUnrevoked(s.tables) && UsedIffClaimed(s.tables) && CredentialsMatchNodes(s.tables)
    && CreationsMatchClaims(s) && CreationsStayBound(s)
    && (forall r :: r in s.inflight ==> s.inflight[r].install != "")
  }

  lemma EnrollKeepsPins(t: Tables, p: Params, db: Db)
    requires OneUnrevoked(t) && UsedIffClaimed(t) && p.install != ""
    ensures OneUnrevoked(EnrollNode(t, p, db).0) && UsedIffClaimed(EnrollNode(t, p, db).0)
  {}

  lemma EnrollKeepsCredentials(t: Tables, p: Params, db: Db)
    requires CredentialsMatchNodes(t)
    ensures CredentialsMatchNodes(EnrollNode(t, p, db).0)
  {
    hide Claimable, Claimed;
    var (tables, outcome) := EnrollNode(t, p, db);
    if outcome.Created? {
      forall n | n in tables.nodes
        ensures exists i :: i in tables.credentials && tables.credentials[i].nodeID == n
      {
        if n == p.nodeID {
          assert tables.credentials[p.install].nodeID == n;
        } else {
          var i :| i in t.credentials && t.credentials[i].nodeID == n;
          assert tables.credentials[i].nodeID == n;
        }
      }
    }
  }

  lemma EnrollKeepsClaimMatch(s: Protocol, e: Event)
    requires CreationsMatchClaims(s)
    requires e.Enroll? && Enabled(s, e) && s.inflight[e.request].install != ""
    ensures CreationsMatchClaims(Apply(s, e))
  {
    hide TokenTaken;
  }

  lemma EnrollKeepsBound(s: Protocol, e: Event)
    requires CreationsStayBound(s) && e.Enroll? && Enabled(s, e)
    ensures CreationsStayBound(Apply(s, e))
  {
    hide TokenTaken, Claimable, Claimed;
  }

  lemma EnrollKeepsInvariant(s: Protocol, e: Event)
    requires Invariant(s) && e.Enroll? && Enabled(s, e)
    ensures Invariant(Apply(s, e))
  {
    hide EnrollNode, OneUnrevoked, UsedIffClaimed, CredentialsMatchNodes, CreationsMatchClaims, CreationsStayBound;
    EnrollKeepsPins(s.tables, s.inflight[e.request], e.db);
    EnrollKeepsCredentials(s.tables, s.inflight[e.request], e.db);
    EnrollKeepsClaimMatch(s, e);
    EnrollKeepsBound(s, e);
  }

  lemma ReplaceKeepsInvariant(s: Protocol, e: Event)
    requires Invariant(s) && e.Replace? && Enabled(s, e)
    ensures Invariant(Apply(s, e))
  {
    var s1 := Apply(s, e);
    assert s1.tables.credentials == s.tables.credentials && s1.tables.nodes == s.tables.nodes
        && s1.created == s.created;
  }

  lemma DeleteKeepsInvariant(s: Protocol, e: Event)
    requires Invariant(s) && e.Delete? && Enabled(s, e)
    ensures Invariant(Apply(s, e))
  {
    var s1 := Apply(s, e);
    forall n | n in s1.tables.nodes
      ensures exists i :: i in s1.tables.credentials && s1.tables.credentials[i].nodeID == n
    {
      var i :| i in s.tables.credentials && s.tables.credentials[i].nodeID == n;
      assert s1.tables.credentials[i].nodeID == n;
    }
  }

  lemma RevokeKeepsInvariant(s: Protocol, e: Event)
    requires Invariant(s) && e.Revoke? && Enabled(s, e)
    ensures Invariant(Apply(s, e))
  {
    var s1 := Apply(s, e);
    assert s1.tables.credentials == s.tables.credentials && s1.tables.nodes == s.tables.nodes
        && s1.created == s.created;
  }

  lemma CheckKeepsInvariant(s: Protocol, e: Event)
    requires Invariant(s) && e.Check? && Enabled(s, e)
    ensures Invariant(Apply(s, e))
  {
    assert Apply(s, e).tables == s.tables && Apply(s, e).created == s.created;
  }

  lemma StepKeepsInvariant(s: Protocol, e: Event)
    requires Invariant(s) && Enabled(s, e)
    ensures Invariant(Apply(s, e))
  {
    hide Invariant, Enabled, Apply;
    match e
    case Check(_, _) => CheckKeepsInvariant(s, e);
    case Enroll(_, _) => EnrollKeepsInvariant(s, e);
    case Replace(_, _, _, _, _) => ReplaceKeepsInvariant(s, e);
    case Revoke(_, _) => RevokeKeepsInvariant(s, e);
    case Delete(_) => DeleteKeepsInvariant(s, e);
  }

  lemma {:induction false} ReachableSatisfiesInvariant(run: seq<Protocol>, events: seq<Event>, i: nat)
    requires IsRun(run, events) && run[0] == INITIAL && i < |run|
    ensures Invariant(run[i])
  {
    hide Apply;
    if i > 0 {
      ReachableSatisfiesInvariant(run, events, i - 1);
      StepKeepsInvariant(run[i - 1], events[i - 1]);
    }
  }

  // ----- what never changes again

  /** `later` is the same PIN row, possibly claimed or revoked since. */
  ghost predicate PinEvolves(pin: Pin, later: Pin) {
    && later.hash == pin.hash && later.createdAt == pin.createdAt && later.expiresAt == pin.expiresAt
    && (pin.claimedInstall != "" ==>
          later.claimedInstall == pin.claimedInstall && later.claimedToken == pin.claimedToken)
    && (pin.usedAt.Some? ==> later.usedAt == pin.usedAt)
    && (pin.revokedAt.Some? ==> later == pin)
  }

  lemma EnrollEvolvesPins(t: Tables, p: Params, db: Db, id: string)
    requires UsedIffClaimed(t) && id in t.pins
    ensures id in EnrollNode(t, p, db).0.pins && PinEvolves(t.pins[id], EnrollNode(t, p, db).0.pins[id])
  {
    hide TokenTaken;
  }

  lemma StepEvolvesPins(s: Protocol, e: Event, id: string)
    requires UsedIffClaimed(s.tables) && Enabled(s, e) && id in s.tables.pins
    ensures id in Apply(s, e).tables.pins && PinEvolves(s.tables.pins[id], Apply(s, e).tables.pins[id])
  {
    hide EnrollNode, IsActivePin;
    if e.Enroll? {
      EnrollEvolvesPins(s.tables, s.inflight[e.request], e.db, id);
    }
  }

  /** Between any two states of a run a claim, its time of use and a revocation stay as they were written. */
  lemma {:induction false} ClaimsAreWriteOnce(run: seq<Protocol>, events: seq<Event>, i: nat, j: nat, id: string)
    requires IsRun(run, events) && run[0] == INITIAL && i <= j < |run|
    requires id in run[i].tables.pins
    ensures id in run[j].tables.pins && PinEvolves(run[i].tables.pins[id], run[j].tables.pins[id])
    decreases j - i
  {
    hide Apply, Enabled, UsedIffClaimed;
    if i < j {
      ClaimsAreWriteOnce(run, events, i, j - 1, id);
      ReachableSatisfiesInvariant(run, events, j - 1);
      StepEvolvesPins(run[j - 1], events[j - 1], id);
    }
  }

  lemma {:induction false} CreationsOnlyGrow(run: seq<Protocol>, events: seq<Event>, i: nat, j: nat)
    requires IsRun(run, events) && i <= j < |run|
    ensures run[i].created <= run[j].created
    decreases j - i
  {
    if i < j {
      CreationsOnlyGrow(run, events, i, j - 1);
      var s, e := run[j - 1], events[j - 1];
      assert s.created <= Apply(s, e).created;
    }
  }

  /** Once a PIN is revoked, no later creation goes through it, whatever was checked before. */
  lemma {:induction false} RevokedPinCreatesNothing(run: seq<Protocol>, events: seq<Event>, i: nat, j: nat, id: string)
    requires IsRun(run, events) && run[0] == INITIAL && i <= j < |run| && id != ""
    requires id in run[i].tables.pins && run[i].tables.pins[id].revokedAt.Some?
    ensures run[i].created <= run[j].created
    ensures forall k :: |run[i].created| <= k < |run[j].created| ==> run[j].created[k].pinID != id
    decreases j - i
  {
    CreationsOnlyGrow(run, events, i, j);
    if i < j {
      RevokedPinCreatesNothing(run, events, i, j - 1, id);
      ClaimsAreWriteOnce(run, events, i, j - 1, id);
    }
  }

  /** All nodes ever created through one PIN have one identity, and at most one of them exists at a time. */
  lemma OneIdentityPerPin(run: seq<Protocol>, events: seq<Event>, j: nat, a: nat, b: nat)
    requires IsRun(run, events) && run[0] == INITIAL && j < |run|
    requires a < |run[j].created| && b < |run[j].created|
    requires run[j].created[a].pinID == run[j].created[b].pinID != ""
    ensures var s := run[j];
            var c1, c2 := s.created[a], s.created[b];
            && c1.install == c2.install && c1.tokenID == c2.tokenID
            && (c1.nodeID in s.tables.nodes && c2.nodeID in s.tables.nodes ==> c1.nodeID == c2.nodeID)
  {
    ReachableSatisfiesInvariant(run, events, j);
    assert CreationsMatchClaims(run[j]) && CreationsStayBound(run[j]);
  }

  /** The authorization query finds a PIN exactly when the only unrevoked one has not expired. */
  lemma ActivePinIsTheUnrevokedOne(run: seq<Protocol>, events: seq<Event>, j: nat, id: string, now: int)
    requires IsRun(run, events) && run[0] == INITIAL && j < |run|
    ensures IsActivePin(run[j].tables, id, now) <==> Usable(run[j].tables, id, now)
    ensures forall other :: Usable(run[j].tables, id, now) && other in run[j].tables.pins && other != id
              ==> run[j].tables.pins[other].revokedAt.Some?
  {
    ReachableSatisfiesInvariant(run, events, j);
    assert OneUnrevoked(run[j].tables);
  }

  // ----- enrolling again

  /** The node that an identity is enrolled as, if it is. */
  predicate EnrolledAs(t: Tables, install: string, tokenHash: string, role: Role, nodeID: string) {
    && install in t.credentials
    && t.credentials[install].tokenHash == tokenHash && t.credentials[install].nodeID == nodeID
    && nodeID in t.nodes && t.nodes[nodeID] == role
  }

  lemma {:induction false} IdentityStaysEnrolled(
    run: seq<Protocol>, events: seq<Event>, i: nat, j: nat, install: string, tokenHash: string, role: Role,
        nodeID: string)
    requires IsRun(run, events) && i <= j < |run|
    requires EnrolledAs(run[i].tables, install, tokenHash, role, nodeID)
    requires forall k :: i <= k < j ==> events[k] != Delete(nodeID)
    ensures EnrolledAs(run[j].tables, install, tokenHash, role, nodeID)
    decreases j - i
  {
    if i < j {
      IdentityStaysEnrolled(run, events, i, j - 1, install, tokenHash, role, nodeID);
      assert Enabled(run[j - 1], events[j - 1]);
    }
  }

  /**
   Until its node is deleted, an enrolled identity that enrolls again gets the same node back unless the
   database fails, even if its creation went unreported; and neither a PIN nor any other row changes,
   whatever has become of its PIN.
   */
  lemma ReEnrollReturnsSameNode(
    run: seq<Protocol>, events: seq<Event>, i: nat, j: nat, first: Params, again: Params, db: Db, dbAgain: Db)
    requires IsRun(run, events) && i < j < |run|
    requires EnrollNode(run[i].tables, first, db) == (run[i + 1].tables, Created(db.Works?))
    requires forall k :: i < k < j ==> events[k] != Delete(first.nodeID)
    requires again.install == first.install && again.tokenHash == first.tokenHash && again.role == first.role
    ensures EnrollNode(run[j].tables, again, dbAgain)
            == (run[j].tables, if dbAgain.FailsBeforeCommit? then StoreError else Existing(first.nodeID))
  {
    assert EnrolledAs(run[i + 1].tables, first.install, first.tokenHash, first.role, first.nodeID);
    IdentityStaysEnrolled(run, events, i + 1, j, first.install, first.tokenHash, first.role, first.nodeID);
  }

  // ----- what each transaction brings about

  /** The identity, the ids and the token of an enrollment are all new. */
  predicate AllNew(t: Tables, p: Params) {
    p.install !in t.credentials && p.nodeID !in t.nodes && forall i :: i in t.credentials ==>
        t.credentials[i].tokenID != p.tokenID
  }

  /** The rows that a new node has after its enrollment, beside those that were there before. */
  predicate Inserted(t: Tables, t1: Tables, p: Params) {
    && t1.nodes == t.nodes[p.nodeID := p.role]
    && t1.credentials == t.credentials[p.install := Credential(p.nodeID, p.tokenID, p.tokenHash)]
  }

  /**
   A PIN that is neither revoked nor expired and that nobody has claimed enrolls a new identity: the
   node is created, the PIN belongs to the identity from then on, and its time of use is noted.
   */
  lemma FreshPinEnrolls(t: Tables, p: Params)
    requires p.pinID != "" && p.pinID in t.pins && AllNew(t, p)
    requires t.pins[p.pinID].revokedAt == None && p.now < t.pins[p.pinID].expiresAt
    requires t.pins[p.pinID].claimedInstall == "" && t.pins[p.pinID].usedAt == None
    ensures var (t1, outcome) := EnrollNode(t, p, Works);
            && outcome == Created(true) && Inserted(t, t1, p)
            && t1.pins == t.pins[p.pinID := t.pins[p.pinID].(
                 claimedInstall := p.install, claimedToken := p.tokenID, usedAt := Some(p.now))]
  {}

  /** A PIN enrolls its own identity again after that identity's node is gone, and keeps its first time of use. */
  lemma ClaimedPinEnrollsItsOwner(t: Tables, p: Params)
    requires p.pinID != "" && p.pinID in t.pins && AllNew(t, p)
    requires t.pins[p.pinID].revokedAt == None && p.now < t.pins[p.pinID].expiresAt && t.pins[p.pinID].usedAt.Some?
    requires t.pins[p.pinID].claimedInstall == p.install && t.pins[p.pinID].claimedToken == p.tokenID
    ensures var (t1, outcome) := EnrollNode(t, p, Works);
            outcome == Created(true) && Inserted(t, t1, p) && t1.pins == t.pins
  {}

  /** The permanent PIN enrolls any new identity and touches no PIN row. */
  lemma PermanentPinEnrolls(t: Tables, p: Params)
    requires p.pinID == "" && AllNew(t, p)
    ensures var (t1, outcome) := EnrollNode(t, p, Works);
            outcome == Created(true) && Inserted(t, t1, p) && t1.pins == t.pins
  {}

  /** What an enrollment of a new identity through a PIN comes to, in all cases. */
  lemma NewIdentityOutcome(t: Tables, p: Params, db: Db)
    requires p.pinID != "" && AllNew(t, p)
    ensures var (t1, outcome) := EnrollNode(t, p, db);
            var refused := || p.pinID !in t.pins || t.pins[p.pinID].revokedAt.Some?
                || t.pins[p.pinID].expiresAt <= p.now
                           || (t.pins[p.pinID].claimedInstall != ""
                               && (t.pins[p.pinID].claimedInstall != p.install
                                  || t.pins[p.pinID].claimedToken != p.tokenID));
            && (outcome == PinUnavailable <==> refused)
            && (outcome == StoreError <==> !refused && db == FailsBeforeCommit)
            && (outcome == Created(false) <==> !refused && db == FailsAfterCommit)
            && (outcome == Created(true) <==> !refused && db == Works)
            && (!outcome.Created? ==> t1 == t)
  {}

  /**
   What an enrollment of a known install id comes to: a conflict unless token and role are its own. No
   row changes.
   */
  lemma KnownIdentityOutcome(t: Tables, p: Params, db: Db)
    requires CredentialsMatchNodes(t) && p.install in t.credentials
    ensures var (t1, outcome) := EnrollNode(t, p, db);
            var c := t.credentials[p.install];
            && t1 == t && c.nodeID in t.nodes
            && (outcome == Conflict <==> c.tokenHash != p.tokenHash || t.nodes[c.nodeID] != p.role)
            && (outcome == Existing(c.nodeID) <==>
                  c.tokenHash == p.tokenHash && t.nodes[c.nodeID] == p.role && db != FailsBeforeCommit)
  {}

  /** A replaced PIN is the active one until it expires, and unclaimed; all the others are revoked. */
  lemma ReplacedPinIsActive(t: Tables, id: string, hash: string, expiresAt: int, now: int, at: int)
    requires id !in t.pins
    ensures var t1 := ReplacePin(t, id, hash, expiresAt, now, true);
            && t1.pins.Keys == t.pins.Keys + {id} && t1.credentials == t.credentials && t1.nodes == t.nodes
            && (IsActivePin(t1, id, at) <==> at < expiresAt)
            && t1.pins[id].hash == hash && t1.pins[id].claimedInstall == "" && t1.pins[id].usedAt == None
            && t1.pins[id].createdAt == now
            && (forall other :: other in t.pins ==>
                  t1.pins[other].revokedAt == if t.pins[other].revokedAt.Some?
                      then t.pins[other].revokedAt else Some(now))
  {}

  /** Revoking revokes that PIN, once, and no other. */
  lemma RevokeTakesEffect(t: Tables, id: string, now: int)
    ensures var t1 := RevokePin(t, id, now);
            && t1.pins.Keys == t.pins.Keys && t1.credentials == t.credentials && t1.nodes == t.nodes
            && (id in t.pins ==>
                  t1.pins[id].revokedAt == if t.pins[id].revokedAt.Some? then t.pins[id].revokedAt else Some(now))
            && (forall other :: other in t.pins && other != id ==> t1.pins[other] == t.pins[other])
  {}

  /** Deleting a node frees its identity and leaves every other node and credential. */
  lemma DeleteFreesIdentity(t: Tables, nodeID: string)
    ensures var t1 := DeleteNode(t, nodeID);
            && t1.pins == t.pins && nodeID !in t1.nodes
            && (forall n :: n in t.nodes && n != nodeID ==> n in t1.nodes && t1.nodes[n] == t.nodes[n])
            && (forall n :: n in t1.nodes ==> n in t.nodes)
            && (forall i :: i in t.credentials ==>
                  (i in t1.credentials <==> t.credentials[i].nodeID != nodeID)
                  && (i in t1.credentials ==> t1.credentials[i] == t.credentials[i]))
            && (forall i :: i in t1.credentials ==> i in t.credentials)
  {}

  /** A request passes the check only with the permanent PIN or one that is neither revoked nor expired then. */
  lemma CheckedPinIsUsable(s: Protocol, request: nat, p: Params)
    requires Enabled(s, Check(request, p)) && p.pinID != ""
    ensures p.pinID in s.tables.pins && s.tables.pins[p.pinID].revokedAt == None
            && p.now < s.tables.pins[p.pinID].expiresAt
    ensures Apply(s, Check(request, p)) == s.(inflight := s.inflight[request := p])
  {}

  /**
   In every reachable state a checked request with a new identity and the active, unclaimed PIN can
   enroll and does.
   */
  lemma CheckedRequestEnrolls(run: seq<Protocol>, events: seq<Event>, j: nat, request: nat)
    requires IsRun(run, events) && run[0] == INITIAL && j < |run| && request in run[j].inflight
    requires var s, p := run[j], run[j].inflight[request];
             && p.pinID != "" && IsActivePin(s.tables, p.pinID, p.now) && s.tables.pins[p.pinID].claimedInstall == ""
             && AllNew(s.tables, p) && forall k :: 0 <= k < |s.created| ==> s.created[k].nodeID != p.nodeID
    ensures var s, p := run[j], run[j].inflight[request];
            && Enabled(s, Enroll(request, Works))
            && var s1 := Apply(s, Enroll(request, Works));
               && s1.created == s.created + [Creation(p.nodeID, p.pinID, p.install, p.tokenID)]
               && Inserted(s.tables, s1.tables, p) && request !in s1.inflight
  {
    ReachableSatisfiesInvariant(run, events, j);
    assert UsedIffClaimed(run[j].tables);
    FreshPinEnrolls(run[j].tables, run[j].inflight[request]);
  }

  /**
   The whole protocol once through: a PIN is set up, a request passes its check and enrolls before the
   PIN expires, and a node exists that was created through it.
   */
  lemma FirstEnrollmentSucceeds(
    id: string, hash: string, expiresAt: int, start: int, p: Params) returns (run: seq<Protocol>)
    requires id != "" && p.pinID == id && p.install != "" && p.now < expiresAt
    ensures IsRun(run, [Replace(id, hash, expiresAt, start, true), Check(0, p), Enroll(0, Works)])
    ensures run[0] == INITIAL && |run| == 4
    ensures run[3].tables.nodes == map[p.nodeID := p.role]
    ensures run[3].created == [Creation(p.nodeID, id, p.install, p.tokenID)]
  {
    var t := ReplacePin(INITIAL.tables, id, hash, expiresAt, start, true);
    ReplacedPinIsActive(INITIAL.tables, id, hash, expiresAt, start, p.now);
    assert t.pins == map[id := Pin(hash, "", "", start, expiresAt, None, None)];
    FreshPinEnrolls(t, p);
    var replaced := INITIAL.(tables := t);
    var checked := replaced.(inflight := map[0 := p]);
    var enrolled := Apply(checked, Enroll(0, Works));
    run := [INITIAL, replaced, checked, enrolled];
  }
}
