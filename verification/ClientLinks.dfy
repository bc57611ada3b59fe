/** Client links: a TV mints a short-lived link, a new client claims it once and becomes a device.
    Each D1 batch is one atomic step; the values a handler read earlier are parameters of its batch,
    so any interleaving of handlers is a sequence of steps. */
module ClientLinks {
  import opened Wrappers
  import FL = FailureLimiter

  const TTL_MS := 600_000

  datatype Profile = Profile(json: string, updatedAt: int)

  /** The authorization a link is minted under; its stored hash is modelled by the value itself. */
  datatype Authorization = Authorization(owner: string, tvToken: string, profile: Option<Profile>)

  datatype Pairing = Pairing(owner: string, tvToken: string, window: FL.Window)
  datatype Link = Link(pairing: string, payload: string, authorization: Authorization, expiresAt: int,
                       consumed: Option<string>)
  datatype Membership = Membership(pairing: string, device: string)

  /** Devices map to their token hashes, links are keyed by theirs, profiles by owner. */
  datatype Tables = Tables(
    devices: map<string, string>,
    pairings: map<string, Pairing>,
    profiles: map<string, Profile>,
    links: map<string, Link>,
    members: set<Membership>,
    recovery: map<string, string>)

  function ProfileOf(t: Tables, owner: string): Option<Profile> {
    if owner in t.profiles then Some(t.profiles[owner]) else None
  }

  /** The join of a pairing with its owner's profile. */
  function Context(t: Tables, pairing: string): Option<Authorization> {
    if pairing !in t.pairings then None
    else
      var p := t.pairings[pairing];
      Some(Authorization(p.owner, p.tvToken, ProfileOf(t, p.owner)))
  }

  predicate Waiting(t: Tables, token: string) {
    token in t.links && t.links[token].consumed.None?
  }

  // ----- minting and cancelling

  /** Bound values of the mint batch; `seen` is the context the handler authorized against. */
  datatype Mint = Mint(pairing: string, token: string, payload: string, seen: Authorization, now: int)

  predicate Open(t: Tables, pairing: string, now: int) {
    pairing in t.pairings && (t.pairings[pairing].window.retryAt <= now
                              || t.pairings[pairing].window.failed < FL.MAX_FAILED_ATTEMPTS)
  }

  function DropExpired(t: Tables, now: int): Tables {
    t.(links := map k | k in t.links && t.links[k].expiresAt > now :: t.links[k])
  }

  function DropOtherWaiting(t: Tables, m: Mint): Tables {
    if !Open(t, m.pairing, m.now) then t
    else
      t.(links := map k | k in t.links
                          && !(t.links[k].pairing == m.pairing && t.links[k].consumed.None? && k != m.token)
                        :: t.links[k])
  }

  /** `None` is the primary-key conflict that rolls the batch back. */
  function InsertLink(t: Tables, m: Mint): Option<Tables> {
    if !(Open(t, m.pairing, m.now) && Context(t, m.pairing) == Some(m.seen)) then Some(t)
    else if m.token in t.links then None
    else Some(t.(links := t.links[m.token := Link(m.pairing, m.payload, m.seen, m.now + TTL_MS, None)]))
  }

  datatype MintReply = Minted | Refused | TokenExists

  function RunMint(t: Tables, m: Mint): (Tables, MintReply) {
    var cleared := DropOtherWaiting(DropExpired(t, m.now), m);
    match InsertLink(cleared, m)
    case None => (t, TokenExists)
    case Some(after) => (after, if after == cleared then Refused else Minted)
  }

  function Cancel(t: Tables, pairing: string, token: string): Tables {
    if Waiting(t, token) && t.links[token].pairing == pairing then t.(links := t.links - {token}) else t
  }

  // ----- claiming

  /** Bound values of the claim batch: what the handler read, and two clocks. */
  datatype Claim = Claim(token: string, device: string, deviceToken: string, seen: Authorization, now: int,
                         databaseNow: int, maxDevices: nat)

  predicate Claimable(t: Tables, c: Claim) {
    && Waiting(t, c.token)
    && t.links[c.token].expiresAt > c.now && t.links[c.token].expiresAt > c.databaseNow
    && t.links[c.token].authorization == c.seen
    && Context(t, t.links[c.token].pairing) == Some(c.seen)
    && |t.devices| < c.maxDevices
    && (forall p <- t.pairings :: t.pairings[p].tvToken != c.deviceToken)
  }

  /** A statement's effect: the tables and its row count; `None` rolls the batch back. */
  datatype Written = Written(tables: Tables, changes: nat)

  function InsertDevice(t: Tables, c: Claim): Option<Written> {
    if !Claimable(t, c) then Some(Written(t, 0))
    else if c.device in t.devices || c.deviceToken in t.devices.Values then None
    else Some(Written(t.(devices := t.devices[c.device := c.deviceToken]), 1))
  }

  function MarkConsumed(w: Written, c: Claim): Written {
    if w.changes == 1 && Waiting(w.tables, c.token)
    then Written(w.tables.(links := w.tables.links[c.token := w.tables.links[c.token].(consumed := Some(c.device))]), 1)
    else Written(w.tables, 0)
  }

  function AddMember(w: Written, c: Claim): Option<Written> {
    if w.changes == 1 && c.token in w.tables.links && w.tables.links[c.token].consumed == Some(c.device) then
      var m := Membership(w.tables.links[c.token].pairing, c.device);
      if m in w.tables.members then None else Some(Written(w.tables.(members := w.tables.members + {m}), 1))
    else Some(Written(w.tables, 0))
  }

  /** The three chained writes in one transaction. */
  function RunClaim(t: Tables, c: Claim): Tables {
    match InsertDevice(t, c)
    case None => t
    case Some(first) =>
      match AddMember(MarkConsumed(first, c), c)
      case None => t
      case Some(last) => last.tables
  }

  datatype Response = Response(payload: string, recovery: Option<string>)

  /** The guarded SELECT that answers claims and retries. */
  function ResponseQuery(t: Tables, c: Claim): Option<Response> {
    if && c.token in t.links && t.links[c.token].consumed == Some(c.device)
       && c.device in t.devices && t.devices[c.device] == c.deviceToken
       && Membership(t.links[c.token].pairing, c.device) in t.members
       && t.links[c.token].expiresAt > c.now && t.links[c.token].expiresAt > c.databaseNow
       && Context(t, t.links[c.token].pairing) == Some(c.seen)
    then Some(Response(t.links[c.token].payload,
                       if t.links[c.token].pairing in t.recovery
                       then Some(t.recovery[t.links[c.token].pairing]) else None))
    else None
  }

  // ----- the other writers of these tables

  function WaitingOf(t: Tables, owner: string): set<string> {
    set k | k in t.links && t.links[k].consumed.None? && t.links[k].pairing in t.pairings
        && t.pairings[t.links[k].pairing].owner == owner
  }

  /** Saving or deleting a profile fires the trigger that deletes the owner's waiting links; a profile
      needs its device, and deleting none fires nothing. */
  function SaveProfile(t: Tables, owner: string, profile: Option<Profile>): Tables {
    if (profile.Some? && owner !in t.devices) || (profile.None? && owner !in t.profiles) then t
    else t.(profiles := if profile.Some? then t.profiles[owner := profile.value] else t.profiles - {owner},
       links := t.links - WaitingOf(t, owner))
  }

  function AddPairing(t: Tables, pairing: string, owner: string, tvToken: string, creator: string): Tables {
    if pairing in t.pairings || owner !in t.devices || creator !in t.devices
        || (exists p <- t.pairings :: t.pairings[p].tvToken == tvToken) then t
    else t.(pairings := t.pairings[pairing := Pairing(owner, tvToken, FL.Window(0, 0))],
            members := t.members + if creator == owner then {} else {Membership(pairing, creator)})
  }

  /** Deleting pairings cascades to their links, members and recovery. */
  function RemovePairings(t: Tables, gone: set<string>): Tables {
    t.(pairings := t.pairings - gone,
       links := (map k | k in t.links && t.links[k].pairing !in gone :: t.links[k]),
       members := (set m | m in t.members && m.pairing !in gone),
       recovery := t.recovery - gone)
  }

  /** Some client linked through a TV still depends on `device` as that TV's owner. */
  predicate Needed(t: Tables, device: string) {
    exists m <- t.members :: m.pairing in t.pairings && t.pairings[m.pairing].owner == device
  }

  /** Deleting a device is refused while linked clients need it; otherwise it cascades to its
      pairings, profile, consumed links and memberships. */
  function RemoveDevice(t: Tables, device: string): Tables {
    if Needed(t, device) then t else DropDevice(RemovePairings(t, OwnedBy(t, device)), device)
  }

  function OwnedBy(t: Tables, device: string): set<string> {
    set p | p in t.pairings && t.pairings[p].owner == device
  }

  function DropDevice(t: Tables, device: string): Tables {
    t.(devices := t.devices - {device}, profiles := t.profiles - {device},
       links := (map k | k in t.links && t.links[k].consumed != Some(device) :: t.links[k]),
       members := (set m | m in t.members && m.device != device))
  }

  function Join(t: Tables, device: string, token: string): Tables {
    if device in t.devices || token in t.devices.Values then t else t.(devices := t.devices[device := token])
  }

  function SaveRecovery(t: Tables, pairing: string, payload: string): Tables {
    if pairing !in t.pairings || pairing in t.recovery then t else t.(recovery := t.recovery[pairing := payload])
  }

  function FailUnlock(t: Tables, pairing: string, tvToken: string, at: int): Tables {
    if pairing !in t.pairings || t.pairings[pairing].tvToken != tvToken then t
    else t.(pairings := t.pairings[pairing := t.pairings[pairing].(window := FL.Fail(t.pairings[pairing].window, at))])
  }

  // ----- runs

  datatype Step =
    | Minting(mint: Mint)
    | Cancelling(pairing: string, token: string)
    | Claiming(claim: Claim)
    | SavingProfile(owner: string, profile: Option<Profile>)
    | AddingPairing(pairing: string, owner: string, tvToken: string, creator: string)
    | RemovingPairing(pairing: string)
    | RemovingDevice(device: string)
    | Joining(device: string, deviceToken: string)
    | SavingRecovery(pairing: string, payload: string)
    | FailingUnlock(pairing: string, tvToken: string, at: int)

  function Apply(t: Tables, s: Step): Tables {
    match s
    case Minting(m) => RunMint(t, m).0
    case Cancelling(pairing, token) => Cancel(t, pairing, token)
    case Claiming(c) => RunClaim(t, c)
    case SavingProfile(owner, profile) => SaveProfile(t, owner, profile)
    case AddingPairing(pairing, owner, tvToken, creator) => AddPairing(t, pairing, owner, tvToken, creator)
    case RemovingPairing(pairing) => RemovePairings(t, {pairing})
    case RemovingDevice(device) => RemoveDevice(t, device)
    case Joining(device, token) => Join(t, device, token)
    case SavingRecovery(pairing, payload) => SaveRecovery(t, pairing, payload)
    case FailingUnlock(pairing, tvToken, at) => FailUnlock(t, pairing, tvToken, at)
  }

  function Run(t: Tables, run: seq<Step>): Tables {
    if run == [] then t else Apply(Run(t, run[..|run| - 1]), run[|run| - 1])
  }

  const EMPTY := Tables(map[], map[], map[], map[], {}, map[])

  // ----- the invariant

  ghost predicate ReferencesHold(t: Tables) {
    && (forall p <- t.pairings :: t.pairings[p].owner in t.devices)
    && (forall k <- t.links :: t.links[k].pairing in t.pairings)
    && (forall m <- t.members :: m.pairing in t.pairings && m.device in t.devices)
  }

  /** Never a consumed marker without its device and its membership. */
  ghost predicate ClaimsComplete(t: Tables) {
    forall k <- t.links :: t.links[k].consumed.Some? ==>
      t.links[k].consumed.value in t.devices && Membership(t.links[k].pairing, t.links[k].consumed.value) in t.members
  }

  /** A waiting link always carries the authorization in force now. */
  ghost predicate WaitingAuthorized(t: Tables) {
    forall k <- t.links :: t.links[k].consumed.None?
        ==> Context(t, t.links[k].pairing) == Some(t.links[k].authorization)
  }

  ghost predicate OneWaiting(t: Tables) {
    forall k, l :: k in t.links && l in t.links && k != l && t.links[k].pairing == t.links[l].pairing
                   ==> t.links[k].consumed.Some? || t.links[l].consumed.Some?
  }

  ghost predicate TokensDiffer(t: Tables) {
    forall d, e :: d in t.devices && e in t.devices && d != e ==> t.devices[d] != t.devices[e]
  }

  ghost predicate Sound(t: Tables) {
    ReferencesHold(t) && ClaimsComplete(t) && WaitingAuthorized(t) && OneWaiting(t) && TokensDiffer(t)
  }

  predicate Accepted(t: Tables, c: Claim) {
    Claimable(t, c) && c.device !in t.devices && c.deviceToken !in t.devices.Values
  }

  /** The device, the consumed marker and the membership, written together. */
  function Redeemed(t: Tables, c: Claim): Tables
    requires c.token in t.links
  {
    t.(devices := t.devices[c.device := c.deviceToken],
       links := t.links[c.token := t.links[c.token].(consumed := Some(c.device))],
       members := t.members + {Membership(t.links[c.token].pairing, c.device)})
  }

  /** All or nothing: a claim writes the device, the consumed marker and the membership together, or
      leaves every table as it was. */
  lemma ClaimIsAllOrNothing(t: Tables, c: Claim)
    requires ReferencesHold(t)
    ensures RunClaim(t, c) == if Accepted(t, c) then Redeemed(t, c) else t
  {
  }

  lemma RedeemedKeepsReferences(t: Tables, c: Claim)
    requires Sound(t) && Accepted(t, c)
    ensures ReferencesHold(Redeemed(t, c)) && ClaimsComplete(Redeemed(t, c)) && TokensDiffer(Redeemed(t, c))
  {
  }

  lemma RedeemedKeepsWaiting(t: Tables, c: Claim)
    requires Sound(t) && Accepted(t, c)
    ensures WaitingAuthorized(Redeemed(t, c)) && OneWaiting(Redeemed(t, c))
  {
    var after := Redeemed(t, c);
    assert forall p :: Context(after, p) == Context(t, p);
    assert forall k <- after.links :: k in t.links && after.links[k].pairing == t.links[k].pairing;
  }

  lemma ClaimKeepsSound(t: Tables, c: Claim)
    requires Sound(t)
    ensures Sound(RunClaim(t, c))
  {
    ClaimIsAllOrNothing(t, c);
    if Accepted(t, c) {
      RedeemedKeepsReferences(t, c);
      RedeemedKeepsWaiting(t, c);
    }
  }

  lemma FewerLinksKeepSound(t: Tables, links: map<string, Link>)
    requires Sound(t) && forall k <- links :: k in t.links && links[k] == t.links[k]
    ensures Sound(t.(links := links))
  {
    var after := t.(links := links);
    assert forall p :: Context(after, p) == Context(t, p);
  }

  lemma InsertKeepsReferences(t: Tables, m: Mint)
    requires Sound(t) && InsertLink(t, m).Some?
    ensures ReferencesHold(InsertLink(t, m).value) && ClaimsComplete(InsertLink(t, m).value)
        && TokensDiffer(InsertLink(t, m).value)
  {
  }

  lemma InsertKeepsWaiting(t: Tables, m: Mint)
    requires Sound(t) && InsertLink(t, m).Some?
    requires Open(t, m.pairing, m.now) ==>
      forall k <- t.links :: t.links[k].pairing == m.pairing ==> t.links[k].consumed.Some? || k == m.token
    ensures WaitingAuthorized(InsertLink(t, m).value) && OneWaiting(InsertLink(t, m).value)
  {
    var after := InsertLink(t, m).value;
    assert forall p :: Context(after, p) == Context(t, p);
    assert forall k <- after.links :: (k in t.links && after.links[k] == t.links[k]) || k == m.token;
  }

  lemma MintKeepsSound(t: Tables, m: Mint)
    requires Sound(t)
    ensures Sound(RunMint(t, m).0)
  {
    var unexpired := DropExpired(t, m.now);
    FewerLinksKeepSound(t, unexpired.links);
    var cleared := DropOtherWaiting(unexpired, m);
    FewerLinksKeepSound(unexpired, cleared.links);
    if InsertLink(cleared, m).Some? {
      InsertKeepsReferences(cleared, m);
      InsertKeepsWaiting(cleared, m);
    }
  }

  lemma SaveProfileKeepsSound(t: Tables, owner: string, profile: Option<Profile>)
    requires Sound(t)
    ensures Sound(SaveProfile(t, owner, profile))
  {
    var after := SaveProfile(t, owner, profile);
    assert after != t ==> forall k <- after.links :: k !in WaitingOf(t, owner);
    forall k <- after.links | after.links[k].consumed.None?
      ensures Context(after, after.links[k].pairing) == Some(after.links[k].authorization)
    {
      assert k in t.links && (after == t || t.pairings[t.links[k].pairing].owner != owner);
    }
  }

  lemma RemovePairingsKeepsSound(t: Tables, gone: set<string>)
    requires Sound(t)
    ensures Sound(RemovePairings(t, gone))
  {
    var after := RemovePairings(t, gone);
    forall k <- after.links
      ensures k in t.links && after.links[k] == t.links[k]
      ensures Context(after, t.links[k].pairing) == Context(t, t.links[k].pairing)
    {
    }
  }

  lemma DropDeviceKeepsSound(t: Tables, device: string)
    requires Sound(t) && OwnedBy(t, device) == {}
    ensures Sound(DropDevice(t, device))
  {
    var after := DropDevice(t, device);
    assert forall p <- t.pairings :: p !in OwnedBy(t, device);
    assert forall p :: Context(after, p) == Context(t, p);
    assert forall k <- after.links :: k in t.links && after.links[k] == t.links[k];
  }

  lemma RemoveDeviceKeepsSound(t: Tables, device: string)
    requires Sound(t)
    ensures Sound(RemoveDevice(t, device))
  {
    RemovePairingsKeepsSound(t, OwnedBy(t, device));
    DropDeviceKeepsSound(RemovePairings(t, OwnedBy(t, device)), device);
  }

  lemma AddPairingKeepsSound(t: Tables, pairing: string, owner: string, tvToken: string, creator: string)
    requires Sound(t)
    ensures Sound(AddPairing(t, pairing, owner, tvToken, creator))
  {
    var after := AddPairing(t, pairing, owner, tvToken, creator);
    assert forall k <- t.links :: Context(after, t.links[k].pairing) == Context(t, t.links[k].pairing);
  }

  lemma FailUnlockKeepsSound(t: Tables, pairing: string, tvToken: string, at: int)
    requires Sound(t)
    ensures Sound(FailUnlock(t, pairing, tvToken, at))
  {
    var after := FailUnlock(t, pairing, tvToken, at);
    assert forall p :: Context(after, p) == Context(t, p);
  }

  lemma StepKeepsSound(t: Tables, s: Step)
    requires Sound(t)
    ensures Sound(Apply(t, s))
  {
    match s {
      case Minting(m) => MintKeepsSound(t, m);
      case Claiming(c) => ClaimKeepsSound(t, c);
      case SavingProfile(owner, profile) => SaveProfileKeepsSound(t, owner, profile);
      case AddingPairing(pairing, owner, tvToken, creator) => AddPairingKeepsSound(t, pairing, owner, tvToken, creator);
      case RemovingPairing(pairing) => RemovePairingsKeepsSound(t, {pairing});
      case RemovingDevice(device) => RemoveDeviceKeepsSound(t, device);
      case FailingUnlock(pairing, tvToken, at) => FailUnlockKeepsSound(t, pairing, tvToken, at);
      case _ => RestKeepsSound(t, s);
    }
  }

  lemma RestKeepsSound(t: Tables, s: Step)
    requires Sound(t) && (s.Joining? || s.Cancelling? || s.SavingRecovery?)
    ensures Sound(Apply(t, s))
  {
    assert forall p :: Context(Apply(t, s), p) == Context(t, p);
  }

  /** In every run claims are all-or-nothing, at most one link per TV waits, and a waiting link is
      redeemable only under the configuration in force. */
  lemma {:induction false} RunsAreSound(run: seq<Step>)
    ensures Sound(Run(EMPTY, run))
  {
    if run != [] {
      RunsAreSound(run[..|run| - 1]);
      StepKeepsSound(Run(EMPTY, run[..|run| - 1]), run[|run| - 1]);
    }
  }

  // ----- single use and retries

  /** Steps that keep link `token` stored: its lifetime is not over, and neither its device nor its
      TV is removed. */
  predicate Keeps(t: Tables, token: string, s: Step) {
    token in t.links && t.links[token].consumed.Some?
    && match s
       case Minting(m) => m.now < t.links[token].expiresAt
       case RemovingPairing(pairing) => pairing != t.links[token].pairing
       case RemovingDevice(device) => device != t.links[token].consumed.value
       case _ => true
  }

  /** The claim behind consumed link `token` of `t` still stands, unchanged, in `after`. */
  predicate Stands(t: Tables, after: Tables, token: string)
    requires token in t.links && t.links[token].consumed.Some? && t.links[token].consumed.value in t.devices
        && t.links[token].pairing in t.pairings
  {
    var link := t.links[token];
    && token in after.links && after.links[token] == link
    && link.consumed.value in after.devices && after.devices[link.consumed.value] == t.devices[link.consumed.value]
    && Membership(link.pairing, link.consumed.value) in after.members
    && link.pairing in after.pairings
    && after.pairings[link.pairing].owner == t.pairings[link.pairing].owner
    && after.pairings[link.pairing].tvToken == t.pairings[link.pairing].tvToken
    && (link.pairing in t.recovery
        ==> link.pairing in after.recovery && after.recovery[link.pairing] == t.recovery[link.pairing])
  }

  lemma StandsThroughClearing(t: Tables, token: string, m: Mint)
    requires Sound(t) && Keeps(t, token, Minting(m))
    ensures Stands(t, DropOtherWaiting(DropExpired(t, m.now), m), token)
  {
    assert token in DropExpired(t, m.now).links;
  }

  lemma StandsThroughInsert(t: Tables, before: Tables, token: string, m: Mint)
    requires token in t.links && t.links[token].consumed.Some? && t.links[token].consumed.value in t.devices
    requires t.links[token].pairing in t.pairings && Stands(t, before, token) && InsertLink(before, m).Some?
    ensures Stands(t, InsertLink(before, m).value, token)
  {
  }

  lemma StandsThroughMint(t: Tables, token: string, m: Mint)
    requires Sound(t) && Keeps(t, token, Minting(m))
    ensures Stands(t, RunMint(t, m).0, token)
  {
    StandsThroughClearing(t, token, m);
    var cleared := DropOtherWaiting(DropExpired(t, m.now), m);
    if InsertLink(cleared, m).Some? {
      StandsThroughInsert(t, cleared, token, m);
    }
  }

  lemma StandsThroughRemoval(t: Tables, token: string, device: string)
    requires Sound(t) && Keeps(t, token, RemovingDevice(device))
    ensures Stands(t, RemoveDevice(t, device), token)
  {
    var link := t.links[token];
    assert Membership(link.pairing, link.consumed.value) in t.members;
    if !Needed(t, device) {
      assert link.pairing !in OwnedBy(t, device);
      var t1 := RemovePairings(t, OwnedBy(t, device));
      assert token in t1.links && t1.links[token] == link;
      assert Membership(link.pairing, link.consumed.value) in t1.members;
    }
  }

  lemma StandsThroughClaim(t: Tables, token: string, c: Claim)
    requires Sound(t) && Keeps(t, token, Claiming(c))
    ensures Stands(t, RunClaim(t, c), token)
  {
    ClaimIsAllOrNothing(t, c);
  }

  lemma StandsThroughPairing(t: Tables, token: string, s: Step)
    requires Sound(t) && Keeps(t, token, s) && s.AddingPairing?
    ensures Stands(t, Apply(t, s), token)
  {
  }

  lemma StandsThroughUnpairing(t: Tables, token: string, pairing: string)
    requires Sound(t) && Keeps(t, token, RemovingPairing(pairing))
    ensures Stands(t, RemovePairings(t, {pairing}), token)
  {
  }

  lemma StandsThroughFailure(t: Tables, token: string, pairing: string, tvToken: string, at: int)
    requires Sound(t) && Keeps(t, token, FailingUnlock(pairing, tvToken, at))
    ensures Stands(t, FailUnlock(t, pairing, tvToken, at), token)
  {
  }

  lemma StandsThroughSaving(t: Tables, token: string, s: Step)
    requires Sound(t) && Keeps(t, token, s) && (s.SavingProfile? || s.SavingRecovery?)
    ensures Stands(t, Apply(t, s), token)
  {
    if s.SavingProfile? {
      assert token !in WaitingOf(t, s.owner);
    }
  }

  lemma StandsThroughRest(t: Tables, token: string, s: Step)
    requires Sound(t) && Keeps(t, token, s) && (s.Joining? || s.Cancelling?)
    ensures Stands(t, Apply(t, s), token)
  {
  }

  /** A consumed link is never rewritten: no claim, mint, cancellation or save changes its row, its
      device, its membership or its TV, and its owner cannot leave. */
  lemma ConsumedLinkStands(t: Tables, token: string, s: Step)
    requires Sound(t) && Keeps(t, token, s)
    ensures t.links[token].consumed.value in t.devices && t.links[token].pairing in t.pairings
    ensures Stands(t, Apply(t, s), token)
  {
    if s.Minting? {
      StandsThroughMint(t, token, s.mint);
    } else if s.RemovingDevice? {
      StandsThroughRemoval(t, token, s.device);
    } else if s.Claiming? {
      StandsThroughClaim(t, token, s.claim);
    } else if s.AddingPairing? {
      StandsThroughPairing(t, token, s);
    } else if s.RemovingPairing? {
      StandsThroughUnpairing(t, token, s.pairing);
    } else if s.FailingUnlock? {
      StandsThroughFailure(t, token, s.pairing, s.tvToken, s.at);
    } else if s.SavingProfile? || s.SavingRecovery? {
      StandsThroughSaving(t, token, s);
    } else {
      StandsThroughRest(t, token, s);
    }
  }

  ghost predicate KeepsThroughout(t: Tables, token: string, run: seq<Step>) {
    run == [] || (KeepsThroughout(t, token, run[..|run| - 1]) && Keeps(Run(t, run[..|run| - 1]), token, run[|run| - 1]))
  }

  lemma {:induction false} ClaimStandsThroughout(t: Tables, token: string, run: seq<Step>)
    requires Sound(t) && token in t.links && t.links[token].consumed.Some? && KeepsThroughout(t, token, run)
    ensures Sound(Run(t, run)) && Stands(t, Run(t, run), token)
  {
    if run != [] {
      ClaimStandsThroughout(t, token, run[..|run| - 1]);
      ConsumedLinkStands(Run(t, run[..|run| - 1]), token, run[|run| - 1]);
      StepKeepsSound(Run(t, run[..|run| - 1]), run[|run| - 1]);
    }
  }

  /** The tables right after an accepted claim. */
  lemma AcceptedClaim(t: Tables, c: Claim)
    requires Sound(t) && Accepted(t, c)
    ensures var after := RunClaim(t, c);
            && Sound(after) && c.token in after.links
            && after.links[c.token] == t.links[c.token].(consumed := Some(c.device))
            && c.device in after.devices && after.devices[c.device] == c.deviceToken
            && Context(after, after.links[c.token].pairing) == Some(c.seen)
  {
    ClaimIsAllOrNothing(t, c);
    ClaimKeepsSound(t, c);
  }

  lemma SpentLink(t: Tables, later: Tables, again: Claim)
    requires Sound(t) && again.token in t.links && t.links[again.token].consumed.Some?
    requires Sound(later) && Stands(t, later, again.token)
    ensures RunClaim(later, again) == later
    ensures ResponseQuery(later, again).Some?
        ==> t.links[again.token].consumed == Some(again.device) && t.devices[again.device] == again.deviceToken
  {
    ClaimIsAllOrNothing(later, again);
  }

  lemma SameAnswer(t: Tables, later: Tables, c: Claim, retry: Claim)
    requires Sound(t) && c.token in t.links && t.links[c.token].consumed == Some(c.device)
        && t.devices[c.device] == c.deviceToken
    requires Sound(later) && Stands(t, later, c.token)
    requires Context(t, t.links[c.token].pairing) == Some(c.seen)
        && ProfileOf(later, c.seen.owner) == ProfileOf(t, c.seen.owner)
    requires retry == c.(now := retry.now, databaseNow := retry.databaseNow)
    requires retry.now < t.links[c.token].expiresAt && retry.databaseNow < t.links[c.token].expiresAt
    ensures Context(later, later.links[c.token].pairing) == Some(c.seen)
    ensures ResponseQuery(later, retry).Some? && ResponseQuery(later, retry).value.payload == t.links[c.token].payload
    ensures t.links[c.token].pairing in t.recovery
        ==> ResponseQuery(later, retry).value.recovery == Some(t.recovery[t.links[c.token].pairing])
  {
  }

  /** Single use: after an accepted claim, whatever happens while the link is stored, every further
      claim of it changes nothing, and only the credentials that claimed it are answered. */
  lemma LinkIsSingleUse(t: Tables, c: Claim, run: seq<Step>, again: Claim)
    requires Sound(t) && Accepted(t, c) && again.token == c.token
    requires KeepsThroughout(RunClaim(t, c), c.token, run)
    ensures var later := Run(RunClaim(t, c), run);
            && RunClaim(later, again) == later
            && (ResponseQuery(later, again).Some? ==> again.device == c.device && again.deviceToken == c.deviceToken)
  {
    AcceptedClaim(t, c);
    var first := RunClaim(t, c);
    ClaimStandsThroughout(first, c.token, run);
    SpentLink(first, Run(first, run), again);
  }

  /** No step of the run saves or deletes the profile of the TV's owner. */
  predicate LeavesProfile(owner: string, run: seq<Step>) {
    forall s <- run :: s.SavingProfile? ==> s.owner != owner
  }

  lemma ProfileKept(t: Tables, token: string, owner: string, s: Step)
    requires Sound(t) && Keeps(t, token, s) && t.pairings[t.links[token].pairing].owner == owner
    requires s.SavingProfile? ==> s.owner != owner
    ensures ProfileOf(Apply(t, s), owner) == ProfileOf(t, owner)
  {
    if s.RemovingDevice? {
      OwnerCannotLeave(t, token, s.device);
    } else if s.Claiming? {
      ClaimIsAllOrNothing(t, s.claim);
    } else if s.Minting? {
      MintKeepsProfiles(t, s.mint);
    }
  }

  lemma MintKeepsProfiles(t: Tables, m: Mint)
    ensures RunMint(t, m).0.profiles == t.profiles
  {
  }

  /** The owner of the TV behind a consumed link stays registered, profile included, whichever device
      asks to leave. */
  lemma OwnerCannotLeave(t: Tables, token: string, device: string)
    requires Sound(t) && token in t.links && t.links[token].consumed.Some?
    ensures var owner, after := t.pairings[t.links[token].pairing].owner, RemoveDevice(t, device);
            && owner in after.devices && after.devices[owner] == t.devices[owner]
            && ProfileOf(after, owner) == ProfileOf(t, owner)
            && (device == owner ==> after == t)
  {
    assert Membership(t.links[token].pairing, t.links[token].consumed.value) in t.members;
  }

  lemma {:induction false} ProfileKeptThroughout(t: Tables, token: string, owner: string, run: seq<Step>)
    requires Sound(t) && token in t.links && t.links[token].consumed.Some? && KeepsThroughout(t, token, run)
    requires t.pairings[t.links[token].pairing].owner == owner && LeavesProfile(owner, run)
    ensures ProfileOf(Run(t, run), owner) == ProfileOf(t, owner)
  {
    if run != [] {
      var front := run[..|run| - 1];
      ProfileKeptThroughout(t, token, owner, front);
      ClaimStandsThroughout(t, token, front);
      ProfileKept(Run(t, front), token, owner, run[|run| - 1]);
    }
  }

  /** The retry in `later` gets what the claim got in `first`: the payload, and any stored recovery. */
  predicate AnsweredAlike(first: Tables, c: Claim, later: Tables, retry: Claim, payload: string) {
    var answer, again := ResponseQuery(first, c), ResponseQuery(later, retry);
    && answer.Some? && again.Some? && again.value.payload == answer.value.payload == payload
    && (answer.value.recovery.Some? ==> again.value.recovery == answer.value.recovery)
  }

  lemma RetryAfter(first: Tables, c: Claim, later: Tables, retry: Claim)
    requires Sound(first) && c.token in first.links && first.links[c.token].consumed == Some(c.device)
        && first.devices[c.device] == c.deviceToken
    requires c.now < first.links[c.token].expiresAt && c.databaseNow < first.links[c.token].expiresAt
    requires Sound(later) && Stands(first, later, c.token)
    requires Context(first, first.links[c.token].pairing) == Some(c.seen)
        && ProfileOf(later, c.seen.owner) == ProfileOf(first, c.seen.owner)
    requires retry == c.(now := retry.now, databaseNow := retry.databaseNow)
    requires retry.now < first.links[c.token].expiresAt && retry.databaseNow < first.links[c.token].expiresAt
    ensures Context(later, later.links[c.token].pairing) == Some(c.seen)
    ensures AnsweredAlike(first, c, later, retry, first.links[c.token].payload)
  {
    assert Stands(first, first, c.token);
    SameAnswer(first, first, c, c);
    SameAnswer(first, later, c, retry);
  }

  /** A retry with the same credentials gets the same answer until the link expires, if the owner's
      profile is left alone: the link's authorization is still the one in force, so the handler's
      check passes again. */
  lemma RetryGetsSameAnswer(t: Tables, c: Claim, run: seq<Step>, now: int, databaseNow: int)
    requires Sound(t) && Accepted(t, c)
    requires KeepsThroughout(RunClaim(t, c), c.token, run) && LeavesProfile(c.seen.owner, run)
    requires now < t.links[c.token].expiresAt && databaseNow < t.links[c.token].expiresAt
    ensures var first, later := RunClaim(t, c), Run(RunClaim(t, c), run);
            && c.token in later.links && later.links[c.token].authorization == c.seen
            && Context(later, later.links[c.token].pairing) == Some(c.seen)
            && AnsweredAlike(first, c, later, c.(now := now, databaseNow := databaseNow), t.links[c.token].payload)
  {
    var first := RunClaim(t, c);
    var later := Run(first, run);
    AcceptedClaim(t, c);
    ClaimStandsThroughout(first, c.token, run);
    ProfileKeptThroughout(first, c.token, c.seen.owner, run);
    RetryAfter(first, c, later, c.(now := now, databaseNow := databaseNow));
  }

  /** Only an accepted claim adds a device and it never passes the cap; only `Join` could. */
  lemma ClaimRespectsCap(t: Tables, c: Claim)
    requires ReferencesHold(t)
    ensures |RunClaim(t, c).devices| == |t.devices| + if Accepted(t, c) then 1 else 0
    ensures RunClaim(t, c) != t <==> Accepted(t, c)
    ensures RunClaim(t, c) != t ==> |RunClaim(t, c).devices| <= c.maxDevices
  {
    ClaimIsAllOrNothing(t, c);
    if Accepted(t, c) {
      DevicesGrowByOne(t.devices, c.device, c.deviceToken);
    }
  }

  lemma DevicesGrowByOne(devices: map<string, string>, device: string, token: string)
    requires device !in devices
    ensures |devices[device := token]| == |devices| + 1
  {
    assert devices[device := token].Keys == devices.Keys + {device};
    assert |devices[device := token]| == |devices[device := token].Keys|;
    assert |devices| == |devices.Keys|;
  }

  // ----- the limiter's effect on minting

  /** Steps during an open full window of `pairing` that leave the TV paired. */
  predicate DuringWindow(t: Tables, pairing: string, until: int, s: Step) {
    match s
    case Minting(m) => m.pairing == pairing ==> m.now < until
    case FailingUnlock(p, _, at) => p == pairing ==> at < until
    case RemovingPairing(p) => p != pairing
    case RemovingDevice(device) => pairing in t.pairings && t.pairings[pairing].owner != device
    case _ => true
  }

  ghost predicate DuringWindowThroughout(t: Tables, pairing: string, until: int, run: seq<Step>) {
    run == [] || (DuringWindowThroughout(t, pairing, until, run[..|run| - 1])
                  && DuringWindow(Run(t, run[..|run| - 1]), pairing, until, run[|run| - 1]))
  }

  /** The TV is paired and its failure window is full and open until `until`. */
  predicate Full(t: Tables, pairing: string, until: int) {
    pairing in t.pairings && t.pairings[pairing].window.failed >= FL.MAX_FAILED_ATTEMPTS
        && t.pairings[pairing].window.retryAt == until
  }

  ghost predicate NoNewLink(t: Tables, after: Tables, pairing: string) {
    forall k <- after.links :: after.links[k].pairing == pairing
        ==> k in t.links && after.links[k] == t.links[k].(consumed := after.links[k].consumed)
  }

  lemma NoNewLinkTwice(t: Tables, middle: Tables, after: Tables, pairing: string)
    requires NoNewLink(t, middle, pairing) && NoNewLink(middle, after, pairing)
    ensures NoNewLink(t, after, pairing)
  {
  }

  lemma FullWindowBlocksMint(t: Tables, pairing: string, until: int, m: Mint)
    requires Full(t, pairing, until) && (m.pairing == pairing ==> m.now < until)
    ensures Full(RunMint(t, m).0, pairing, until) && NoNewLink(t, RunMint(t, m).0, pairing)
  {
    assert m.pairing == pairing ==> !Open(t, pairing, m.now);
  }

  lemma FullWindowOutlastsRemoval(t: Tables, pairing: string, until: int, device: string)
    requires Full(t, pairing, until) && t.pairings[pairing].owner != device
    ensures Full(RemoveDevice(t, device), pairing, until) && NoNewLink(t, RemoveDevice(t, device), pairing)
  {
    var t1 := RemovePairings(t, OwnedBy(t, device));
    assert pairing in t1.pairings && t1.pairings[pairing] == t.pairings[pairing];
    assert forall k <- t1.links :: k in t.links && t1.links[k] == t.links[k];
  }

  lemma FullWindowBlocksRest(t: Tables, pairing: string, until: int, s: Step)
    requires Full(t, pairing, until) && DuringWindow(t, pairing, until, s)
    requires !s.Minting? && !s.RemovingDevice? && !s.Claiming?
    ensures Full(Apply(t, s), pairing, until) && NoNewLink(t, Apply(t, s), pairing)
  {
  }

  lemma FullWindowBlocksStep(t: Tables, pairing: string, until: int, s: Step)
    requires ReferencesHold(t) && Full(t, pairing, until) && DuringWindow(t, pairing, until, s)
    ensures Full(Apply(t, s), pairing, until) && NoNewLink(t, Apply(t, s), pairing)
  {
    match s {
      case Claiming(c) => ClaimIsAllOrNothing(t, c);
      case RemovingDevice(device) => FullWindowOutlastsRemoval(t, pairing, until, device);
      case Minting(m) => FullWindowBlocksMint(t, pairing, until, m);
      case _ => FullWindowBlocksRest(t, pairing, until, s);
    }
  }

  /** While a full window is open no link is stored for the TV: neither profile saves, cancellations,
      claims nor further guesses let a mint through. */
  lemma {:induction false} FullWindowBlocksMinting(t: Tables, pairing: string, until: int, run: seq<Step>)
    requires Sound(t) && Full(t, pairing, until) && DuringWindowThroughout(t, pairing, until, run)
    ensures Sound(Run(t, run)) && Full(Run(t, run), pairing, until) && NoNewLink(t, Run(t, run), pairing)
  {
    if run != [] {
      var front, last := run[..|run| - 1], run[|run| - 1];
      FullWindowBlocksMinting(t, pairing, until, front);
      FullWindowBlocksStep(Run(t, front), pairing, until, last);
      NoNewLinkTwice(t, Run(t, front), Apply(Run(t, front), last), pairing);
      StepKeepsSound(Run(t, front), last);
    }
  }

  /** The stamps of the failed unlocks a run records against a TV. */
  function Failures(run: seq<Step>, pairing: string, tvToken: string): seq<int> {
    if run == [] then []
    else
      var last := run[|run| - 1];
      Failures(run[..|run| - 1], pairing, tvToken)
      + if last.FailingUnlock? && last.pairing == pairing && last.tvToken == tvToken then [last.at] else []
  }

  predicate Unpairs(row: Pairing, pairing: string, s: Step) {
    (s.RemovingPairing? && s.pairing == pairing) || (s.RemovingDevice? && s.device == row.owner)
  }

  lemma OnlyFailuresMoveWindow(t: Tables, pairing: string, s: Step)
    requires ReferencesHold(t) && pairing in t.pairings && !Unpairs(t.pairings[pairing], pairing, s)
    ensures pairing in Apply(t, s).pairings
    ensures Apply(t, s).pairings[pairing]
            == if s.FailingUnlock? && s.pairing == pairing && s.tvToken == t.pairings[pairing].tvToken
               then t.pairings[pairing].(window := FL.Fail(t.pairings[pairing].window, s.at)) else t.pairings[pairing]
  {
    match s {
      case Claiming(c) => ClaimIsAllOrNothing(t, c);
      case RemovingDevice(device) => assert pairing in RemovePairings(t, OwnedBy(t, device)).pairings;
      case _ =>
    }
  }

  lemma OneMoreFailure(past: seq<int>, failures: seq<int>, at: int)
    ensures FL.After(past + (failures + [at])) == FL.Fail(FL.After(past + failures), at)
  {
    assert past + (failures + [at]) == (past + failures) + [at];
  }

  lemma WindowFollowsStep(t: Tables, pairing: string, past: seq<int>, run: seq<Step>, before: Tables)
    requires run != [] && ReferencesHold(before) && pairing in t.pairings && pairing in before.pairings
    requires !Unpairs(t.pairings[pairing], pairing, run[|run| - 1])
    requires before.pairings[pairing]
        == t.pairings[pairing].(window :=
             FL.After(past + Failures(run[..|run| - 1], pairing, t.pairings[pairing].tvToken)))
    ensures pairing in Apply(before, run[|run| - 1]).pairings
    ensures Apply(before, run[|run| - 1]).pairings[pairing]
            == t.pairings[pairing].(window := FL.After(past + Failures(run, pairing, t.pairings[pairing].tvToken)))
  {
    var last, failures := run[|run| - 1], Failures(run[..|run| - 1], pairing, t.pairings[pairing].tvToken);
    OnlyFailuresMoveWindow(before, pairing, last);
    if last.FailingUnlock? {
      OneMoreFailure(past, failures, last.at);
    }
    assert failures + [] == failures;
  }

  /** A TV's failure window is exactly the limiter run over the failures recorded since it was paired:
      nothing else resets or extends it. */
  lemma {:induction false} WindowIsItsFailures(t: Tables, pairing: string, past: seq<int>, run: seq<Step>)
    requires Sound(t) && pairing in t.pairings && t.pairings[pairing].window == FL.After(past)
    requires forall s <- run :: !Unpairs(t.pairings[pairing], pairing, s)
    ensures Sound(Run(t, run)) && pairing in Run(t, run).pairings
    ensures Run(t, run).pairings[pairing]
            == t.pairings[pairing].(window := FL.After(past + Failures(run, pairing, t.pairings[pairing].tvToken)))
  {
    if run == [] {
      assert past + [] == past;
    } else {
      var front, last := run[..|run| - 1], run[|run| - 1];
      WindowIsItsFailures(t, pairing, past, front);
      assert last in run;
      WindowFollowsStep(t, pairing, past, run, Run(t, front));
      StepKeepsSound(Run(t, front), last);
    }
  }

  /** The stamps of the failures a run counts against a TV, in order. */
  function CountedFailures(t: Tables, run: seq<Step>, pairing: string, tvToken: string): seq<int> {
    if run == [] then []
    else
      var front, last := run[..|run| - 1], run[|run| - 1];
      CountedFailures(t, front, pairing, tvToken)
      + if CountsNow(Run(t, front), last, pairing, tvToken) then [last.at] else []
  }

  predicate CountsNow(t: Tables, s: Step, pairing: string, tvToken: string) {
    && s.FailingUnlock? && s.pairing == pairing && s.tvToken == tvToken
    && pairing in t.pairings && FL.Counts(t.pairings[pairing].window, s.at)
  }

  lemma CountedSnoc(stamps: seq<int>, at: int)
    ensures FL.Stamps(FL.Counted(stamps + [at]))
            == FL.Stamps(FL.Counted(stamps)) + if FL.Counts(FL.After(stamps), at) then [at] else []
  {
    assert (stamps + [at])[..|stamps|] == stamps;
  }

  /** The failures a run counts are those the limiter counts of the failures it records. */
  lemma {:induction false} CountedAreTheLimiters(t: Tables, pairing: string, run: seq<Step>)
    requires Sound(t) && pairing in t.pairings && t.pairings[pairing].window == FL.After([])
    requires forall s <- run :: !Unpairs(t.pairings[pairing], pairing, s)
    ensures CountedFailures(t, run, pairing, t.pairings[pairing].tvToken)
            == FL.Stamps(FL.Counted(Failures(run, pairing, t.pairings[pairing].tvToken)))
  {
    if run != [] {
      var front, last, token := run[..|run| - 1], run[|run| - 1], t.pairings[pairing].tvToken;
      CountedAreTheLimiters(t, pairing, front);
      WindowIsItsFailures(t, pairing, [], front);
      assert [] + Failures(front, pairing, token) == Failures(front, pairing, token);
      if last.FailingUnlock? {
        CountedSnoc(Failures(front, pairing, token), last.at);
      }
      assert Failures(front, pairing, token) + [] == Failures(front, pairing, token);
    }
  }

  /** Over any run of all writers since the TV was paired, with an ordered clock, a closed span of `span`
      milliseconds holds at most 5 * (span / 60000 + 2) counted failed unlocks. */
  lemma FailedUnlocksPerSpan(t: Tables, pairing: string, run: seq<Step>, i: nat, j: nat, span: nat)
    requires Sound(t) && pairing in t.pairings && t.pairings[pairing].window == FL.Window(0, 0)
    requires forall s <- run :: !Unpairs(t.pairings[pairing], pairing, s)
    requires FL.ClockOrdered(Failures(run, pairing, t.pairings[pairing].tvToken))
    requires i <= j < |CountedFailures(t, run, pairing, t.pairings[pairing].tvToken)|
    requires var counted := CountedFailures(t, run, pairing, t.pairings[pairing].tvToken);
             counted[j] - counted[i] <= span
    ensures j - i + 1 <= FL.MAX_FAILED_ATTEMPTS * (span / FL.FAILURE_WINDOW_MS + 2)
  {
    CountedAreTheLimiters(t, pairing, run);
    FL.FailuresPerSpan(Failures(run, pairing, t.pairings[pairing].tvToken), i, j, span);
  }

  /** A mint stores its link exactly when the window is open, the context is unchanged and the token is
      free; it is then the TV's only waiting link. A closed window keeps the link already waiting. */
  lemma MintReplacesOrKeeps(t: Tables, m: Mint)
    requires Sound(t)
    ensures var (after, reply) := RunMint(t, m);
            && (reply.Minted? <==> Open(t, m.pairing, m.now) && Context(t, m.pairing) == Some(m.seen)
                                   && (m.token !in t.links || t.links[m.token].expiresAt <= m.now))
            && (reply.Minted? ==>
                  && m.token in after.links
                  && after.links[m.token] == Link(m.pairing, m.payload, m.seen, m.now + TTL_MS, None)
                  && OnlyWaiting(after, m.pairing, m.token))
            && (!Open(t, m.pairing, m.now) ==> after == DropExpired(t, m.now))
  {
    var unexpired := DropExpired(t, m.now);
    if Open(t, m.pairing, m.now) && Context(t, m.pairing) == Some(m.seen) && m.token !in unexpired.links {
      MintedIsOnlyWaiting(unexpired, m);
    }
  }

  /** `token` is the one link that waits for the TV. */
  predicate OnlyWaiting(t: Tables, pairing: string, token: string) {
    forall k <- t.links :: t.links[k].pairing == pairing && t.links[k].consumed.None? <==> k == token
  }

  lemma MintedIsOnlyWaiting(t: Tables, m: Mint)
    requires Open(t, m.pairing, m.now) && Context(t, m.pairing) == Some(m.seen) && m.token !in t.links
    ensures var after := InsertLink(DropOtherWaiting(t, m), m);
            after.Some? && OnlyWaiting(after.value, m.pairing, m.token)
  {
    var cleared := DropOtherWaiting(t, m);
    assert m.token !in cleared.links;
    assert forall k <- cleared.links :: !(cleared.links[k].pairing == m.pairing && cleared.links[k].consumed.None?);
  }

  /** Whatever a mint replies, unexpired links of other TVs and consumed ones stay as they are. */
  lemma MintSparesOthers(t: Tables, m: Mint, k: string)
    requires k in t.links && t.links[k].expiresAt > m.now
        && (t.links[k].pairing != m.pairing || t.links[k].consumed.Some?)
    ensures k in RunMint(t, m).0.links && RunMint(t, m).0.links[k] == t.links[k]
  {
    var cleared := DropOtherWaiting(DropExpired(t, m.now), m);
    assert k in cleared.links && cleared.links[k] == t.links[k];
  }

  // ----- from the mint to the claim

  /** Apart from its consumed marker, link `k` of `after` is link `k` of `t`. */
  predicate SameRow(t: Tables, after: Tables, k: string) {
    k in after.links ==> k in t.links && after.links[k] == t.links[k].(consumed := after.links[k].consumed)
  }

  lemma MintKeepsRow(t: Tables, m: Mint, k: string)
    requires k != m.token
    ensures SameRow(t, RunMint(t, m).0, k)
  {
    var cleared := DropOtherWaiting(DropExpired(t, m.now), m);
    assert SameRow(t, cleared, k);
  }

  /** Only minting its token again gives a link another row. */
  lemma RowsAreImmutable(t: Tables, s: Step, k: string)
    requires ReferencesHold(t) && !(s.Minting? && s.mint.token == k)
    ensures SameRow(t, Apply(t, s), k)
  {
    match s {
      case Minting(m) => MintKeepsRow(t, m, k);
      case Claiming(c) => ClaimIsAllOrNothing(t, c);
      case RemovingDevice(device) => assert SameRow(t, RemovePairings(t, OwnedBy(t, device)), k);
      case _ =>
    }
  }

  lemma {:induction false} RowsAreImmutableThroughout(t: Tables, run: seq<Step>, k: string)
    requires Sound(t) && forall s <- run :: !(s.Minting? && s.mint.token == k)
    ensures Sound(Run(t, run)) && SameRow(t, Run(t, run), k)
  {
    if run != [] {
      var front, last := run[..|run| - 1], run[|run| - 1];
      RowsAreImmutableThroughout(t, front, k);
      assert last in run;
      RowsAreImmutable(Run(t, front), last, k);
      StepKeepsSound(Run(t, front), last);
    }
  }

  /** End to end: a claim that is accepted any time after the mint is answered with the payload that
      was minted, within the link's lifetime and under the authorization the mint was made under. */
  lemma ClaimDeliversMintedPayload(t: Tables, m: Mint, run: seq<Step>, c: Claim)
    requires Sound(t) && RunMint(t, m).1.Minted? && c.token == m.token
    requires forall s <- run :: !(s.Minting? && s.mint.token == m.token)
    requires Accepted(Run(RunMint(t, m).0, run), c)
    ensures c.seen == m.seen && c.now < m.now + TTL_MS && c.databaseNow < m.now + TTL_MS
    ensures var answer := ResponseQuery(RunClaim(Run(RunMint(t, m).0, run), c), c);
            answer.Some? && answer.value.payload == m.payload
  {
    var minted := RunMint(t, m).0;
    MintReplacesOrKeeps(t, m);
    MintKeepsSound(t, m);
    RowsAreImmutableThroughout(minted, run, m.token);
    DeliveredPayload(Run(minted, run), c);
  }

  lemma DeliveredPayload(t: Tables, c: Claim)
    requires Sound(t) && Accepted(t, c)
    ensures ResponseQuery(RunClaim(t, c), c).Some?
        && ResponseQuery(RunClaim(t, c), c).value.payload == t.links[c.token].payload
  {
    ClaimIsAllOrNothing(t, c);
  }

  // ----- the tables as a mutable store

  datatype Request = Request(token: string, device: string, deviceToken: string, readAt: int, now: int,
                             databaseNow: int)
  datatype Reply = Expired | Conflict | Granted(response: Response)

  /** The handler's batch, once it read the context it answers under. */
  function ClaimOf(r: Request, seen: Authorization, maxDevices: nat): Claim {
    Claim(r.token, r.device, r.deviceToken, seen, r.now, r.databaseNow, maxDevices)
  }

  /** The reads at the top of the handler find a live link whose authorization is in force. */
  predicate Redeemable(t: Tables, r: Request) {
    && r.token in t.links && t.links[r.token].expiresAt > r.readAt
    && Context(t, t.links[r.token].pairing) == Some(t.links[r.token].authorization)
  }

  /** The whole handler, undisturbed; `profileReads` is whether the stored profile could be normalized. */
  function HandleClaim(t: Tables, r: Request, profileReads: bool, maxDevices: nat): (Tables, Reply) {
    if !Redeemable(t, r) || !profileReads then (t, Expired)
    else
      var c := ClaimOf(r, t.links[r.token].authorization, maxDevices);
      var after := RunClaim(t, c);
      (after, match ResponseQuery(after, c) { case Some(answer) => Granted(answer) case None => Conflict })
  }

  class LinkStore {
    var devices: map<string, string>
    var pairings: map<string, Pairing>
    var profiles: map<string, Profile>
    var links: map<string, Link>
    var members: set<Membership>
    var recovery: map<string, string>

    ghost function State(): Tables reads this {
      Tables(devices, pairings, profiles, links, members, recovery)
    }

    constructor()
      ensures State() == EMPTY
    {
      devices, pairings, profiles, links, members, recovery := map[], map[], map[], map[], {}, map[];
    }

    /** The mint batch. */
    method StoreLink(m: Mint) returns (reply: MintReply)
      modifies this
      ensures (State(), reply) == RunMint(old(State()), m)
    {
      var before := links;
      links := map k | k in links && links[k].expiresAt > m.now :: links[k];
      var open := m.pairing in pairings
          && (pairings[m.pairing].window.retryAt <= m.now
              || pairings[m.pairing].window.failed < FL.MAX_FAILED_ATTEMPTS);
      if open {
        links := map k | k in links
            && !(links[k].pairing == m.pairing && links[k].consumed.None? && k != m.token) :: links[k];
      }
      ghost var cleared := State();
      assert cleared == DropOtherWaiting(DropExpired(old(State()), m.now), m);
      if !open || !Matches(m.pairing, m.seen) {
        return Refused;
      } else if m.token in links {
        links := before;
        return TokenExists;
      } else {
        links := links[m.token := Link(m.pairing, m.payload, m.seen, m.now + TTL_MS, None)];
        assert m.token !in cleared.links && State() != cleared;
        return Minted;
      }
    }

    /** The guarded join that minting, claiming and answering share. */
    function Matches(pairing: string, seen: Authorization): (r: bool)
      reads this
      ensures r <==> Context(State(), pairing) == Some(seen)
    {
      && pairing in pairings && pairings[pairing].owner == seen.owner && pairings[pairing].tvToken == seen.tvToken
      && seen.profile == if seen.owner in profiles then Some(profiles[seen.owner]) else None
    }

    method CancelLink(pairing: string, token: string)
      modifies this
      ensures State() == Cancel(old(State()), pairing, token)
    {
      if token in links && links[token].consumed.None? && links[token].pairing == pairing {
        links := links - {token};
      }
    }

    /** A failed profile unlock: the guarded counter update, and the row read back after it. */
    method FailUnlockAttempt(pairing: string, tvToken: string, at: int) returns (limited: Option<FL.Window>)
      modifies this
      ensures State() == FailUnlock(old(State()), pairing, tvToken, at)
      ensures limited == if pairing in pairings && pairings[pairing].tvToken == tvToken
          then Some(pairings[pairing].window) else None
    {
      if pairing !in pairings || pairings[pairing].tvToken != tvToken {
        return None;
      }
      var row := pairings[pairing];
      if row.window.retryAt <= at || row.window.failed < FL.MAX_FAILED_ATTEMPTS {
        var expired := row.window.retryAt <= at;
        row := row.(window := FL.Window(if expired then 1 else row.window.failed + 1,
                                        if expired then at + FL.FAILURE_WINDOW_MS else row.window.retryAt));
      }
      pairings := pairings[pairing := row];
      limited := Some(row.window);
    }

    method StoreRecovery(pairing: string, payload: string) returns (stored: bool)
      modifies this
      ensures State() == SaveRecovery(old(State()), pairing, payload)
      ensures stored <==> State() != old(State())
    {
      stored := pairing in pairings && pairing !in recovery;
      if stored {
        recovery := recovery[pairing := payload];
      }
    }

    method ClaimLink(r: Request, profileReads: bool, maxDevices: nat) returns (reply: Reply)
      requires ReferencesHold(State())
      modifies this
      ensures (State(), reply) == HandleClaim(old(State()), r, profileReads, maxDevices)
    {
      if r.token !in links || links[r.token].expiresAt <= r.readAt
          || !Matches(links[r.token].pairing, links[r.token].authorization) {
        return Expired;
      }
      if !profileReads {
        return Expired;
      }
      var c := ClaimOf(r, links[r.token].authorization, maxDevices);
      ClaimIsAllOrNothing(State(), c);
      if links[r.token].consumed.None? {
        if && links[r.token].expiresAt > r.now && links[r.token].expiresAt > r.databaseNow && |devices| < maxDevices
           && forall p <- pairings :: pairings[p].tvToken != r.deviceToken
        {
          if r.device in devices || r.deviceToken in devices.Values {
            return Conflict;
          }
          devices := devices[r.device := r.deviceToken];
          links := links[r.token := links[r.token].(consumed := Some(r.device))];
          members := members + {Membership(links[r.token].pairing, r.device)};
        }
      }
      reply := Respond(c);
    }

    method Respond(c: Claim) returns (reply: Reply)
      ensures reply == match ResponseQuery(State(), c) { case Some(answer) => Granted(answer) case None => Conflict }
    {
      if c.token !in links {
        return Conflict;
      }
      var link := links[c.token];
      if && link.consumed == Some(c.device) && c.device in devices && devices[c.device] == c.deviceToken
         && Membership(link.pairing, c.device) in members
         && link.expiresAt > c.now && link.expiresAt > c.databaseNow && Matches(link.pairing, c.seen)
      {
        reply := Granted(Response(link.payload, if link.pairing in recovery then Some(recovery[link.pairing])
                                  else None));
      } else {
        reply := Conflict;
      }
    }
  }
}
