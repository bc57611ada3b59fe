/** When the client-link handlers say yes, in terms of the rows alone: which mints store their link,
    which claims are granted, and that a minted link can be claimed for its whole lifetime. */
module ClaimGrants {
  import opened Wrappers
  import opened ClientLinks
  import FL = FailureLimiter

  /** The TV is paired with this owner and token, and the owner's profile is the one given. */
  predicate InForce(t: Tables, pairing: string, a: Authorization) {
    && pairing in t.pairings && t.pairings[pairing].owner == a.owner && t.pairings[pairing].tvToken == a.tvToken
    && (match a.profile
        case None => a.owner !in t.profiles
        case Some(profile) => a.owner in t.profiles && t.profiles[a.owner] == profile)
  }

  // ----- minting

  /** A mint is stored exactly if the TV and profile are as they were seen, fewer than five failures count
      or their window is over, and no live link has the token; a live one with the token is a conflict. */
  lemma MintStoredIff(t: Tables, m: Mint)
    requires Sound(t)
    ensures RunMint(t, m).1.Minted? <==>
              && InForce(t, m.pairing, m.seen)
              && (t.pairings[m.pairing].window.failed < 5 || t.pairings[m.pairing].window.retryAt <= m.now)
              && (m.token !in t.links || t.links[m.token].expiresAt <= m.now)
    ensures RunMint(t, m).1.TokenExists? <==>
              && InForce(t, m.pairing, m.seen)
              && (t.pairings[m.pairing].window.failed < 5 || t.pairings[m.pairing].window.retryAt <= m.now)
              && m.token in t.links && t.links[m.token].expiresAt > m.now
    ensures RunMint(t, m).1.Minted? ==>
              && m.token in RunMint(t, m).0.links
              && RunMint(t, m).0.links[m.token] == Link(m.pairing, m.payload, m.seen, m.now + 600_000, None)
  {
    MintReplacesOrKeeps(t, m);
    InForceIsContext(t, m.pairing, m.seen);
    var unexpired := DropExpired(t, m.now);
    assert m.token in DropOtherWaiting(unexpired, m).links <==> m.token in unexpired.links;
  }

  lemma InForceIsContext(t: Tables, pairing: string, a: Authorization)
    ensures InForce(t, pairing, a) <==> Context(t, pairing) == Some(a)
  {
  }

  /** Cancelling deletes the TV's waiting link of that token, and nothing else. */
  lemma CancelDeletesWaiting(t: Tables, pairing: string, token: string)
    ensures var after := Cancel(t, pairing, token);
            && after == t.(links := after.links)
            && (forall k :: k in after.links <==>
                  k in t.links && !(k == token && t.links[k].pairing == pairing && t.links[k].consumed.None?))
            && (forall k <- after.links :: after.links[k] == t.links[k])
  {
  }

  /** Five failures within a window close it until a minute after the first; a sixth is not counted. */
  lemma FiveFailuresCloseWindow(w: FL.Window, at: seq<int>)
    requires |at| == 5 && w.retryAt <= at[0]
    requires forall i :: 0 <= i < 5 ==> at[0] <= at[i] < at[0] + 60_000
    ensures var closed := FL.Fail(FL.Fail(FL.Fail(FL.Fail(FL.Fail(w, at[0]), at[1]), at[2]), at[3]), at[4]);
            && closed == FL.Window(5, at[0] + 60_000)
            && (forall later :: later < at[0] + 60_000 ==> FL.Fail(closed, later) == closed)
            && (forall later :: later >= at[0] + 60_000 ==> FL.Fail(closed, later) == FL.Window(1, later + 60_000))
  {
  }

  // ----- claiming

  /** A claim by an unknown device: the link waits, and nothing it brings is taken. */
  predicate NewDevice(t: Tables, r: Request, maxDevices: nat) {
    && |t.devices| < maxDevices && r.device !in t.devices
    && (forall d <- t.devices :: t.devices[d] != r.deviceToken)
    && (forall p <- t.pairings :: t.pairings[p].tvToken != r.deviceToken)
  }

  function Recovery(t: Tables, pairing: string): Option<string> {
    if pairing in t.recovery then Some(t.recovery[pairing]) else None
  }

  /** The batch on a waiting link, and its answer. */
  lemma WaitingLinkAnswered(t: Tables, r: Request, maxDevices: nat)
    requires Sound(t) && r.token in t.links && t.links[r.token].consumed.None?
    ensures var link := t.links[r.token];
            var c := ClaimOf(r, link.authorization, maxDevices);
            ResponseQuery(RunClaim(t, c), c)
            == if r.now < link.expiresAt && r.databaseNow < link.expiresAt && NewDevice(t, r, maxDevices)
               then Some(Response(link.payload, Recovery(t, link.pairing))) else None
  {
    var c := ClaimOf(r, t.links[r.token].authorization, maxDevices);
    ClaimIsAllOrNothing(t, c);
    FreshToken(t, r);
    assert Context(Redeemed(t, c), t.links[r.token].pairing) == Context(t, t.links[r.token].pairing);
  }

  /** The batch on a consumed link changes nothing; it answers the device and token that consumed it. */
  lemma ConsumedLinkAnswered(t: Tables, r: Request, maxDevices: nat)
    requires Sound(t) && r.token in t.links && t.links[r.token].consumed.Some?
    requires InForce(t, t.links[r.token].pairing, t.links[r.token].authorization)
    ensures var link := t.links[r.token];
            var c := ClaimOf(r, link.authorization, maxDevices);
            ResponseQuery(RunClaim(t, c), c)
            == if r.now < link.expiresAt && r.databaseNow < link.expiresAt && link.consumed.value == r.device
                  && t.devices[link.consumed.value] == r.deviceToken
               then Some(Response(link.payload, Recovery(t, link.pairing))) else None
  {
    var c := ClaimOf(r, t.links[r.token].authorization, maxDevices);
    InForceIsContext(t, t.links[r.token].pairing, t.links[r.token].authorization);
    ClaimIsAllOrNothing(t, c);
  }

  /** Whatever happened between reading and writing: the batch writes exactly if the link waits unexpired
      under the authorization the handler saw, that is still in force, and the device is new. */
  lemma ClaimBatchIff(t: Tables, c: Claim)
    requires Sound(t)
    ensures if c.token in t.links && t.links[c.token].consumed.None?
               && c.now < t.links[c.token].expiresAt && c.databaseNow < t.links[c.token].expiresAt
               && t.links[c.token].authorization == c.seen && InForce(t, t.links[c.token].pairing, c.seen)
               && NewDevice(t, Request(c.token, c.device, c.deviceToken, 0, c.now, c.databaseNow), c.maxDevices)
            then var link := t.links[c.token];
                 RunClaim(t, c) == t.(devices := t.devices[c.device := c.deviceToken],
                                      links := t.links[c.token := link.(consumed := Some(c.device))],
                                      members := t.members + {Membership(link.pairing, c.device)})
            else RunClaim(t, c) == t
  {
    ClaimIsAllOrNothing(t, c);
    FreshToken(t, Request(c.token, c.device, c.deviceToken, 0, c.now, c.databaseNow));
    if c.token in t.links {
      InForceIsContext(t, t.links[c.token].pairing, c.seen);
    }
  }

  /** In any tables at all, a claim under an authorization that is not the link's or no longer in force
      writes nothing, and none out of force is answered, nor one without its membership. */
  lemma StaleClaimIsRefused(t: Tables, c: Claim)
    requires c.token in t.links
    ensures t.links[c.token].authorization != c.seen || !InForce(t, t.links[c.token].pairing, c.seen)
            ==> RunClaim(t, c) == t
    ensures !InForce(t, t.links[c.token].pairing, c.seen) ==> ResponseQuery(t, c) == None
    ensures Membership(t.links[c.token].pairing, c.device) !in t.members ==> ResponseQuery(t, c) == None
  {
    InForceIsContext(t, t.links[c.token].pairing, c.seen);
  }

  /** A claim is granted exactly if the link is unexpired on all three clocks, its authorization is in
      force, its profile can be read, and either the link waits and the device is new and below the cap,
      or the link was consumed by this very device and token. It is answered with the link's payload. */
  lemma ClaimGrantedIff(t: Tables, r: Request, profileReads: bool, maxDevices: nat)
    requires Sound(t)
    ensures HandleClaim(t, r, profileReads, maxDevices).1.Granted? <==>
              && r.token in t.links && profileReads
              && r.readAt < t.links[r.token].expiresAt && r.now < t.links[r.token].expiresAt
              && r.databaseNow < t.links[r.token].expiresAt
              && InForce(t, t.links[r.token].pairing, t.links[r.token].authorization)
              && (match t.links[r.token].consumed
                  case None => NewDevice(t, r, maxDevices)
                  case Some(device) => device == r.device && t.devices[device] == r.deviceToken)
    ensures HandleClaim(t, r, profileReads, maxDevices).1.Granted? ==>
              HandleClaim(t, r, profileReads, maxDevices).1
              == Granted(Response(t.links[r.token].payload, Recovery(t, t.links[r.token].pairing)))
  {
    ClaimExpiredIff(t, r, profileReads, maxDevices);
    if !HandleClaim(t, r, profileReads, maxDevices).1.Expired? {
      if t.links[r.token].consumed.None? {
        WaitingLinkAnswered(t, r, maxDevices);
      } else {
        ConsumedLinkAnswered(t, r, maxDevices);
      }
    }
  }

  lemma FreshToken(t: Tables, r: Request)
    ensures r.deviceToken !in t.devices.Values <==> forall d <- t.devices :: t.devices[d] != r.deviceToken
  {
  }

  /** The other replies: expired before anything is written, conflict when the batch finds a reason. */
  lemma ClaimExpiredIff(t: Tables, r: Request, profileReads: bool, maxDevices: nat)
    ensures HandleClaim(t, r, profileReads, maxDevices).1.Expired? <==>
              || r.token !in t.links || t.links[r.token].expiresAt <= r.readAt || !profileReads
              || !InForce(t, t.links[r.token].pairing, t.links[r.token].authorization)
    ensures HandleClaim(t, r, profileReads, maxDevices).1.Expired?
            ==> HandleClaim(t, r, profileReads, maxDevices).0 == t
  {
    if r.token in t.links {
      InForceIsContext(t, t.links[r.token].pairing, t.links[r.token].authorization);
    }
  }

  // ----- the other writers

  /** A saved profile is the owner's from then on, a deleted one is gone, and either way exactly the links
      that were waiting on the owner's TVs go. */
  lemma ProfileIsSaved(t: Tables, owner: string, profile: Option<Profile>)
    requires if profile.Some? then owner in t.devices else owner in t.profiles
    ensures var after := SaveProfile(t, owner, profile);
            && (if profile.Some? then after.profiles == t.profiles[owner := profile.value]
                else after.profiles == t.profiles - {owner})
            && (forall k :: k in after.links <==>
                  k in t.links && !(t.links[k].consumed.None? && t.links[k].pairing in t.pairings
                                    && t.pairings[t.links[k].pairing].owner == owner))
            && (forall k <- after.links :: after.links[k] == t.links[k])
  {
  }

  /** A TV is paired exactly if its id and token are new and owner and creator are devices; it starts with
      no failures, and a creator other than the owner becomes a member. */
  lemma PairingIsAdded(t: Tables, pairing: string, owner: string, tvToken: string, creator: string)
    ensures var after := AddPairing(t, pairing, owner, tvToken, creator);
            if pairing !in t.pairings && owner in t.devices && creator in t.devices
               && forall p <- t.pairings :: t.pairings[p].tvToken != tvToken
            then after.pairings == t.pairings[pairing := Pairing(owner, tvToken, FL.Window(0, 0))]
                 && after.links == t.links
                 && (forall m :: m in after.members <==>
                       m in t.members || (creator != owner && m == Membership(pairing, creator)))
            else after == t
  {
  }

  /** Recovery is stored for a TV that has none, and the first one stays through every later attempt. */
  lemma RecoveryIsStoredOnce(t: Tables, pairing: string, payload: string, later: string)
    requires pairing in t.pairings
    ensures var after := SaveRecovery(t, pairing, payload);
            && Recovery(after, pairing)
               == (if pairing in t.recovery then Some(t.recovery[pairing]) else Some(payload))
            && SaveRecovery(after, pairing, later) == after
  {
  }

  // ----- a minted link works for its whole lifetime

  /** Steps that let the link minted by `m` wait on: no newer mint of its TV, no cancellation, no other
      claim, no new profile, and neither TV nor owner removed. */
  predicate LetsWait(m: Mint, s: Step) {
    match s
    case Minting(other) => other.pairing != m.pairing && other.now < m.now + 600_000
    case Cancelling(pairing, token) => pairing != m.pairing || token != m.token
    case Claiming(c) => c.token != m.token
    case SavingProfile(owner, _) => owner != m.seen.owner
    case RemovingPairing(pairing) => pairing != m.pairing
    case RemovingDevice(device) => device != m.seen.owner
    case _ => true
  }

  /** The minted link waits, unchanged and authorized. */
  predicate StillWaits(t: Tables, m: Mint) {
    m.token in t.links && t.links[m.token] == Link(m.pairing, m.payload, m.seen, m.now + 600_000, None)
  }

  lemma WaitsThroughMint(t: Tables, m: Mint, other: Mint)
    requires StillWaits(t, m) && other.pairing != m.pairing && other.now < m.now + 600_000
    ensures StillWaits(RunMint(t, other).0, m)
  {
    MintSparesOthers(t, other, m.token);
  }

  lemma WaitsThroughRemoval(t: Tables, m: Mint, device: string)
    requires Sound(t) && StillWaits(t, m) && device != m.seen.owner
    ensures StillWaits(RemoveDevice(t, device), m)
  {
    InForceIsContext(t, m.pairing, m.seen);
    assert m.pairing !in OwnedBy(t, device);
    assert m.token in RemovePairings(t, OwnedBy(t, device)).links;
  }

  lemma WaitsThroughClaim(t: Tables, m: Mint, c: Claim)
    requires Sound(t) && StillWaits(t, m) && c.token != m.token
    ensures StillWaits(RunClaim(t, c), m)
  {
    ClaimIsAllOrNothing(t, c);
  }

  lemma WaitsThroughSave(t: Tables, m: Mint, owner: string, profile: Option<Profile>)
    requires Sound(t) && StillWaits(t, m) && owner != m.seen.owner
    ensures StillWaits(SaveProfile(t, owner, profile), m)
  {
    InForceIsContext(t, m.pairing, m.seen);
    assert m.token !in WaitingOf(t, owner);
  }

  lemma WaitsThroughRest(t: Tables, m: Mint, s: Step)
    requires StillWaits(t, m) && LetsWait(m, s)
    requires !s.Minting? && !s.Claiming? && !s.RemovingDevice? && !s.SavingProfile?
    ensures StillWaits(Apply(t, s), m)
  {
  }

  lemma WaitsThroughStep(t: Tables, m: Mint, s: Step)
    requires Sound(t) && StillWaits(t, m) && LetsWait(m, s)
    ensures StillWaits(Apply(t, s), m)
  {
    match s {
      case Minting(other) => WaitsThroughMint(t, m, other);
      case Claiming(c) => WaitsThroughClaim(t, m, c);
      case RemovingDevice(device) => WaitsThroughRemoval(t, m, device);
      case SavingProfile(owner, profile) => WaitsThroughSave(t, m, owner, profile);
      case _ => WaitsThroughRest(t, m, s);
    }
  }

  lemma {:induction false} WaitsThroughRun(t: Tables, m: Mint, run: seq<Step>)
    requires Sound(t) && StillWaits(t, m) && forall s <- run :: LetsWait(m, s)
    ensures Sound(Run(t, run)) && StillWaits(Run(t, run), m)
  {
    if run != [] {
      var front, last := run[..|run| - 1], run[|run| - 1];
      assert last in run;
      WaitsThroughRun(t, m, front);
      WaitsThroughStep(Run(t, front), m, last);
      StepKeepsSound(Run(t, front), last);
    }
  }

  /** End to end: a link that was minted is granted, with its payload, to the first new device that claims
      it within ten minutes, whatever else happened to other TVs, links and devices. */
  lemma MintedLinkCanBeClaimed(t: Tables, m: Mint, run: seq<Step>, r: Request, maxDevices: nat)
    requires Sound(t) && RunMint(t, m).1.Minted? && (forall s <- run :: LetsWait(m, s))
    requires r.token == m.token && NewDevice(Run(RunMint(t, m).0, run), r, maxDevices)
    requires r.readAt < m.now + 600_000 && r.now < m.now + 600_000 && r.databaseNow < m.now + 600_000
    ensures var reply := HandleClaim(Run(RunMint(t, m).0, run), r, true, maxDevices).1;
            reply.Granted? && reply.response.payload == m.payload
  {
    var minted := RunMint(t, m).0;
    MintStoredIff(t, m);
    MintKeepsSound(t, m);
    WaitsThroughRun(minted, m, run);
    var later := Run(minted, run);
    InForceIsContext(later, m.pairing, m.seen);
    ClaimGrantedIff(later, r, true, maxDevices);
  }

  /** From empty tables: an owner joins, pairs a TV, the TV mints, and a second device claims. */
  lemma FirstLinkWorks(owner: string, ownerToken: string, pairing: string, tvToken: string, m: Mint, r: Request)
    requires m.pairing == pairing && m.seen == Authorization(owner, tvToken, None) && r.token == m.token && m.now >= 0
    requires r.readAt < m.now + 600_000 && r.now < m.now + 600_000 && r.databaseNow < m.now + 600_000
    requires r.device != owner && r.deviceToken != ownerToken && r.deviceToken != tvToken
    ensures var setup := Apply(Apply(EMPTY, Joining(owner, ownerToken)), AddingPairing(pairing, owner, tvToken, owner));
            var reply := HandleClaim(RunMint(setup, m).0, r, true, 2).1;
            RunMint(setup, m).1.Minted? && reply.Granted? && reply.response.payload == m.payload
  {
    var joined := Apply(EMPTY, Joining(owner, ownerToken));
    var setup := Apply(joined, AddingPairing(pairing, owner, tvToken, owner));
    StepKeepsSound(EMPTY, Joining(owner, ownerToken));
    StepKeepsSound(joined, AddingPairing(pairing, owner, tvToken, owner));
    assert setup.devices == map[owner := ownerToken]
        && setup.pairings == map[pairing := Pairing(owner, tvToken, FL.Window(0, 0))];
    MintStoredIff(setup, m);
    assert RunMint(setup, m).0.devices == setup.devices && RunMint(setup, m).0.pairings == setup.pairings;
    assert Run(RunMint(setup, m).0, []) == RunMint(setup, m).0;
    assert |map[owner := ownerToken]| == 1;
    MintedLinkCanBeClaimed(setup, m, [], r, 2);
  }
}
