/** The published-card registry: cards by version, the latest pointers and the partner
    index, kept in step with the history of calls. */
module Publishing {
  import opened Prelude

  datatype CardStatus = Draft | Published | Deprecated | Revoked

  /** A capability id and a version. */
  type Key = (string, string)

  datatype Card = Card(
    capability: string,
    version: string,
    partner: string,
    body: string,
    status: CardStatus,
    revokeReason: Option<string>
  ) {
    function CardKey(): Key { (capability, version) }
  }

  /** `keys` is the insertion order of `cards`. `everRevoked` is history: the keys some
      revoke call was applied to. */
  datatype Registry = Registry(
    keys: seq<Key>,
    cards: map<Key, Card>,
    latest: map<string, (string, string)>,
    partners: map<string, set<Key>>,
    everRevoked: set<Key>
  )

  const EMPTY := Registry([], map[], map[], map[], {})

  function IndexOf(r: Registry, partner: string): set<Key> {
    if partner in r.partners then r.partners[partner] else {}
  }

  datatype PublishError = NotADraft | AlreadyPublished | NoSigningKey | UnknownCard

  // ---- Calls ----

  function PublishVerdict(r: Registry, card: Card, canSign: bool): Option<PublishError> {
    if card.status != Draft then Some(NotADraft)
    else if card.CardKey() in r.cards then Some(AlreadyPublished)
    else if !canSign then Some(NoSigningKey)
    else None
  }

  /** Publishing adds the card; with `newVersion`, or for a first version, it becomes the latest. */
  function Publish(r: Registry, card: Card, canSign: bool, newVersion: bool): Registry {
    if PublishVerdict(r, card, canSign).Some? then r
    else
      var k := card.CardKey();
      r.(keys := r.keys + [k],
         cards := r.cards[k := card.(status := Published)],
         latest := if newVersion || card.capability !in r.latest
                   then r.latest[card.capability := (card.version, card.partner)] else r.latest,
         partners := r.partners[card.partner := IndexOf(r, card.partner) + {k}])
  }

  function Deprecate(r: Registry, k: Key): Registry {
    if k !in r.cards then r
    else r.(cards := r.cards[k := r.cards[k].(status := Deprecated)])
  }

  predicate Promotable(cards: map<Key, Card>, revoked: Key, k: Key) {
    k in cards && k.0 == revoked.0 && k.1 != revoked.1 && cards[k].status == Published
  }

  /** The first other published version of the capability, in insertion order. */
  function Successor(keys: seq<Key>, cards: map<Key, Card>, revoked: Key): Option<Key> {
    if keys == [] then None
    else if Promotable(cards, revoked, keys[0]) then Some(keys[0])
    else Successor(keys[1..], cards, revoked)
  }

  function NextLatest(r: Registry, cards: map<Key, Card>, k: Key): map<string, (string, string)> {
    if k.0 in r.latest && r.latest[k.0].0 == k.1 then
      var next := Successor(r.keys, cards, k);
      if next.Some? && next.value in cards then r.latest[k.0 := (next.value.1, cards[next.value].partner)]
      else r.latest - {k.0}
    else r.latest
  }

  function Revoke(r: Registry, k: Key, reason: string): Registry {
    if k !in r.cards then r
    else
      var card := r.cards[k].(status := Revoked, revokeReason := Some(reason));
      var cards := r.cards[k := card];
      r.(cards := cards,
         latest := NextLatest(r, cards, k),
         partners := if card.partner in r.partners
                     then r.partners[card.partner := r.partners[card.partner] - {k}] else r.partners,
         everRevoked := r.everRevoked + {k})
  }

  datatype Step =
    | DoPublish(card: Card, canSign: bool, newVersion: bool)
    | DoDeprecate(key: Key)
    | DoRevoke(key: Key, reason: string)

  function Apply(r: Registry, s: Step): Registry {
    match s
    case DoPublish(card, canSign, newVersion) => Publish(r, card, canSign, newVersion)
    case DoDeprecate(key) => Deprecate(r, key)
    case DoRevoke(key, reason) => Revoke(r, key, reason)
  }

  function Run(steps: seq<Step>): Registry {
    if steps == [] then EMPTY else Apply(Run(steps[..|steps| - 1]), steps[|steps| - 1])
  }

  // ---- Invariants ----

  ghost predicate CardsOk(r: Registry) {
    && Distinct(r.keys)
    && (forall k :: k in r.keys <==> k in r.cards)
    && r.everRevoked <= r.cards.Keys
    && forall k :: k in r.cards ==>
         && r.cards[k].CardKey() == k
         && r.cards[k].status != Draft
         && (r.cards[k].status == Revoked ==> k in r.everRevoked)
         && (k in r.everRevoked ==> r.cards[k].status != Published)
  }

  ghost predicate IndexOk(r: Registry, partner: string) {
    forall k :: k in IndexOf(r, partner) <==>
      k in r.cards && r.cards[k].partner == partner && k !in r.everRevoked
  }

  ghost predicate HasPublished(r: Registry, capability: string) {
    exists version :: (capability, version) in r.cards && r.cards[(capability, version)].status == Published
  }

  ghost predicate LatestOk(r: Registry, capability: string) {
    && (capability in r.latest ==>
          var k := (capability, r.latest[capability].0);
          k in r.cards && k !in r.everRevoked && r.cards[k].partner == r.latest[capability].1)
    && (HasPublished(r, capability) ==> capability in r.latest)
  }

  ghost predicate Sound(r: Registry) {
    && CardsOk(r)
    && (forall partner :: IndexOk(r, partner))
    && (forall capability :: LatestOk(r, capability))
  }

  lemma {:induction false} SuccessorIsPromotable(keys: seq<Key>, cards: map<Key, Card>, revoked: Key)
    ensures Successor(keys, cards, revoked).Some? ==>
      Promotable(cards, revoked, Successor(keys, cards, revoked).value)
    ensures Successor(keys, cards, revoked).None? ==> forall k :: k in keys ==> !Promotable(cards, revoked, k)
  {
    if keys != [] {
      SuccessorIsPromotable(keys[1..], cards, revoked);
      assert keys == [keys[0]] + keys[1..];
    }
  }

  lemma PublishKeepsSound(r: Registry, card: Card, canSign: bool, newVersion: bool)
    requires Sound(r)
    ensures Sound(Publish(r, card, canSign, newVersion))
  {
    if PublishVerdict(r, card, canSign).None? {
      var s := Publish(r, card, canSign, newVersion);
      forall partner
        ensures IndexOk(s, partner)
      {
        assert IndexOk(r, partner);
      }
      forall capability
        ensures LatestOk(s, capability)
      {
        PublishKeepsLatest(r, card, canSign, newVersion, capability);
      }
    }
  }

  lemma PublishKeepsLatest(r: Registry, card: Card, canSign: bool, newVersion: bool, capability: string)
    requires Sound(r) && PublishVerdict(r, card, canSign).None?
    ensures LatestOk(Publish(r, card, canSign, newVersion), capability)
  {
    var s := Publish(r, card, canSign, newVersion);
    assert LatestOk(r, capability);
    if version :| (capability, version) in s.cards && s.cards[(capability, version)].status == Published {
      assert capability == card.capability || HasPublished(r, capability);
    }
  }

  lemma DeprecateKeepsSound(r: Registry, k: Key)
    requires Sound(r)
    ensures Sound(Deprecate(r, k))
  {
    var s := Deprecate(r, k);
    forall partner
      ensures IndexOk(s, partner)
    {
      assert IndexOk(r, partner);
    }
    forall capability
      ensures LatestOk(s, capability)
    {
      assert LatestOk(r, capability);
      DeprecateKeepsLatest(r, k, capability);
    }
  }

  lemma DeprecateKeepsLatest(r: Registry, k: Key, capability: string)
    requires LatestOk(r, capability)
    ensures LatestOk(Deprecate(r, k), capability)
  {
    var s := Deprecate(r, k);
    if version :| (capability, version) in s.cards && s.cards[(capability, version)].status == Published {
      assert HasPublished(r, capability);
    }
  }

  /** The latest entry of the capability is a published card. */
  ghost predicate PointsToPublished(r: Registry, capability: string) {
    capability in r.latest
    && var k := (capability, r.latest[capability].0);
       k in r.cards && r.cards[k].status == Published
  }

  /** Revoking the pointed version moves the pointer to a published one, or removes it. */
  lemma RevokeKeepsLatest(r: Registry, k: Key, reason: string, capability: string)
    requires Sound(r) && k in r.cards
    ensures LatestOk(Revoke(r, k, reason), capability)
    ensures var s := Revoke(r, k, reason);
      if capability == k.0 && capability in r.latest && r.latest[capability].0 == k.1 then
        PointsToPublished(s, capability) || (capability !in s.latest && !HasPublished(s, capability))
      else
        && (capability in s.latest <==> capability in r.latest)
        && (capability in r.latest ==> s.latest[capability] == r.latest[capability])
  {
    var s := Revoke(r, k, reason);
    assert LatestOk(r, capability);
    SuccessorIsPromotable(r.keys, s.cards, k);
    if version :| (capability, version) in s.cards && s.cards[(capability, version)].status == Published {
      var other := (capability, version);
      assert other != k && r.cards[other] == s.cards[other];
      assert HasPublished(r, capability);
      assert other in r.keys;
      assert capability == k.0 ==> Promotable(s.cards, k, other);
    }
  }

  lemma RevokeKeepsSound(r: Registry, k: Key, reason: string)
    requires Sound(r)
    ensures Sound(Revoke(r, k, reason))
  {
    if k in r.cards {
      var s := Revoke(r, k, reason);
      forall partner
        ensures IndexOk(s, partner)
      {
        assert IndexOk(r, partner);
      }
      forall capability
        ensures LatestOk(s, capability)
      {
        RevokeKeepsLatest(r, k, reason, capability);
      }
    }
  }

  lemma StepKeepsSound(r: Registry, s: Step)
    requires Sound(r)
    ensures Sound(Apply(r, s))
  {
    match s
    case DoPublish(card, canSign, newVersion) => PublishKeepsSound(r, card, canSign, newVersion);
    case DoDeprecate(key) => DeprecateKeepsSound(r, key);
    case DoRevoke(key, reason) => RevokeKeepsSound(r, key, reason);
  }

  lemma {:induction false} RunIsSound(steps: seq<Step>)
    ensures Sound(Run(steps))
  {
    if steps == [] {
      assert forall capability :: !HasPublished(EMPTY, capability);
    } else {
      RunIsSound(steps[..|steps| - 1]);
      StepKeepsSound(Run(steps[..|steps| - 1]), steps[|steps| - 1]);
    }
  }

  // ---- Whole-run properties ----

  /** Some revoke call in the history was applied to the key. */
  ghost predicate WasRevoked(steps: seq<Step>, k: Key) {
    exists i: nat :: i < |steps| && RevokedAt(steps, k, i)
  }

  ghost predicate RevokedAt(steps: seq<Step>, k: Key, i: nat)
    requires i < |steps|
  {
    steps[i].DoRevoke? && steps[i].key == k && k in Run(steps[..i]).cards
  }

  lemma {:induction false} RevokedIsHistory(steps: seq<Step>, k: Key)
    ensures k in Run(steps).everRevoked <==> WasRevoked(steps, k)
  {
    if steps != [] {
      var init := steps[..|steps| - 1];
      RevokedIsHistory(init, k);
      RevokedInPrefix(steps, k);
      StepRevokes(Run(init), steps[|steps| - 1], k);
    }
  }

  lemma StepRevokes(r: Registry, s: Step, k: Key)
    ensures k in Apply(r, s).everRevoked <==>
      k in r.everRevoked || (s.DoRevoke? && s.key == k && k in r.cards)
  {
  }

  lemma RevokedInPrefix(steps: seq<Step>, k: Key)
    requires steps != []
    ensures WasRevoked(steps, k) <==>
      WasRevoked(steps[..|steps| - 1], k) || RevokedAt(steps, k, |steps| - 1)
  {
    var init := steps[..|steps| - 1];
    forall i: nat | i < |init|
      ensures RevokedAt(init, k, i) <==> RevokedAt(steps, k, i)
    {
      assert init[..i] == steps[..i];
    }
  }

  /** The partner index is exactly that partner's never-revoked cards. */
  lemma PartnerIndexMatchesHistory(steps: seq<Step>, partner: string, k: Key)
    ensures k in IndexOf(Run(steps), partner) <==>
      k in Run(steps).cards && Run(steps).cards[k].partner == partner && !WasRevoked(steps, k)
  {
    RunIsSound(steps);
    RevokedIsHistory(steps, k);
    assert IndexOk(Run(steps), partner);
  }

  /** The latest pointer always names a stored, never-revoked card of its partner, and it
      exists as long as some version is published. */
  lemma LatestMatchesHistory(steps: seq<Step>, capability: string)
    ensures var r := Run(steps);
      && (capability in r.latest ==>
            var k := (capability, r.latest[capability].0);
            k in r.cards && !WasRevoked(steps, k) && r.cards[k].partner == r.latest[capability].1)
      && (HasPublished(r, capability) ==> capability in r.latest)
  {
    RunIsSound(steps);
    var r := Run(steps);
    assert LatestOk(r, capability);
    if capability in r.latest {
      RevokedIsHistory(steps, (capability, r.latest[capability].0));
    }
  }

  lemma StepNeverRepublishes(r: Registry, s: Step, k: Key)
    requires CardsOk(r) && k in r.cards
    ensures k in Apply(r, s).cards
    ensures r.cards[k].status != Published ==> Apply(r, s).cards[k].status != Published
  {
  }

  /** A version that leaves the published state never returns to it. */
  lemma {:induction false} LeftPublishedForGood(steps: seq<Step>, i: nat, k: Key)
    requires i <= |steps| && k in Run(steps[..i]).cards && Run(steps[..i]).cards[k].status != Published
    ensures k in Run(steps).cards && Run(steps).cards[k].status != Published
  {
    if i == |steps| {
      assert steps[..i] == steps;
    } else {
      var init := steps[..|steps| - 1];
      assert init[..i] == steps[..i];
      LeftPublishedForGood(init, i, k);
      RunIsSound(init);
      StepNeverRepublishes(Run(init), steps[|steps| - 1], k);
    }
  }

  function Get(r: Registry, capability: string, version: Option<string>): Option<Card> {
    match version
    case Some(v) => if (capability, v) in r.cards then Some(r.cards[(capability, v)]) else None
    case None =>
      if capability !in r.latest then None
      else
        var k := (capability, r.latest[capability].0);
        if k in r.cards then Some(r.cards[k]) else None
  }

  /** Some deprecate call in the history was applied to the key. */
  ghost predicate WasDeprecated(steps: seq<Step>, k: Key) {
    exists i: nat :: i < |steps| && DeprecatedAt(steps, k, i)
  }

  ghost predicate DeprecatedAt(steps: seq<Step>, k: Key, i: nat)
    requires i < |steps|
  {
    steps[i] == DoDeprecate(k) && k in Run(steps[..i]).cards
  }

  lemma DeprecatedInPrefix(steps: seq<Step>, k: Key)
    requires steps != []
    ensures WasDeprecated(steps, k) <==>
      WasDeprecated(steps[..|steps| - 1], k) || DeprecatedAt(steps, k, |steps| - 1)
  {
    var init := steps[..|steps| - 1];
    forall i: nat | i < |init|
      ensures DeprecatedAt(init, k, i) <==> DeprecatedAt(steps, k, i)
    {
      assert init[..i] == steps[..i];
    }
  }

  lemma StepAndStatus(r: Registry, s: Step, k: Key)
    requires CardsOk(r)
    ensures k in r.cards ==> k in Apply(r, s).cards
    ensures k in Apply(r, s).cards ==>
      (Apply(r, s).cards[k].status == Published <==>
         if k in r.cards
         then r.cards[k].status == Published && s != DoDeprecate(k) && !(s.DoRevoke? && s.key == k)
         else true)
  {
  }

  lemma {:induction false} OnlyStoredDeprecated(steps: seq<Step>, k: Key)
    ensures WasDeprecated(steps, k) || WasRevoked(steps, k) ==> k in Run(steps).cards
  {
    if steps != [] {
      var init := steps[..|steps| - 1];
      OnlyStoredDeprecated(init, k);
      DeprecatedInPrefix(steps, k);
      RevokedInPrefix(steps, k);
      RunIsSound(init);
      StepAndStatus(Run(init), steps[|steps| - 1], k);
    }
  }

  /** A stored card is published exactly as long as it was neither deprecated nor revoked. */
  lemma {:induction false} PublishedMeansUntouched(steps: seq<Step>, k: Key)
    requires k in Run(steps).cards
    ensures Run(steps).cards[k].status == Published <==> !WasDeprecated(steps, k) && !WasRevoked(steps, k)
  {
    if steps != [] {
      var init, s := steps[..|steps| - 1], steps[|steps| - 1];
      DeprecatedInPrefix(steps, k);
      RevokedInPrefix(steps, k);
      RunIsSound(init);
      StepAndStatus(Run(init), s, k);
      OnlyStoredDeprecated(init, k);
      if k in Run(init).cards {
        PublishedMeansUntouched(init, k);
      }
    }
  }

  /** The last call of the history that was applied to the key deprecated it, or revoked it. */
  ghost predicate LastDeprecated(steps: seq<Step>, k: Key) {
    exists i: nat :: i < |steps| && DeprecatedAt(steps, k, i) && NotRevokedSince(steps, k, i)
  }

  ghost predicate LastRevoked(steps: seq<Step>, k: Key) {
    exists i: nat :: i < |steps| && RevokedAt(steps, k, i) && NotDeprecatedSince(steps, k, i)
  }

  ghost predicate NotRevokedSince(steps: seq<Step>, k: Key, i: nat) {
    forall j: nat :: i < j < |steps| ==> !RevokedAt(steps, k, j)
  }

  ghost predicate NotDeprecatedSince(steps: seq<Step>, k: Key, i: nat) {
    forall j: nat :: i < j < |steps| ==> !DeprecatedAt(steps, k, j)
  }

  lemma CallsInPrefix(steps: seq<Step>, k: Key, i: nat)
    requires i < |steps| - 1
    ensures RevokedAt(steps, k, i) <==> RevokedAt(steps[..|steps| - 1], k, i)
    ensures DeprecatedAt(steps, k, i) <==> DeprecatedAt(steps[..|steps| - 1], k, i)
  {
    assert steps[..|steps| - 1][..i] == steps[..i];
  }

  lemma NotRevokedInPrefix(steps: seq<Step>, k: Key, i: nat)
    requires i < |steps| - 1
    ensures var init, n := steps[..|steps| - 1], |steps| - 1;
      NotRevokedSince(steps, k, i) <==> NotRevokedSince(init, k, i) && !RevokedAt(steps, k, n)
  {
    var init, n := steps[..|steps| - 1], |steps| - 1;
    if NotRevokedSince(steps, k, i) {
      forall j: nat | i < j < |init|
        ensures !RevokedAt(init, k, j)
      {
        CallsInPrefix(steps, k, j);
      }
    }
    if NotRevokedSince(init, k, i) && !RevokedAt(steps, k, n) {
      forall j: nat | i < j < |steps|
        ensures !RevokedAt(steps, k, j)
      {
        if j < n {
          CallsInPrefix(steps, k, j);
        }
      }
    }
  }

  lemma NotDeprecatedInPrefix(steps: seq<Step>, k: Key, i: nat)
    requires i < |steps| - 1
    ensures var init, n := steps[..|steps| - 1], |steps| - 1;
      NotDeprecatedSince(steps, k, i) <==> NotDeprecatedSince(init, k, i) && !DeprecatedAt(steps, k, n)
  {
    var init, n := steps[..|steps| - 1], |steps| - 1;
    if NotDeprecatedSince(steps, k, i) {
      forall j: nat | i < j < |init|
        ensures !DeprecatedAt(init, k, j)
      {
        CallsInPrefix(steps, k, j);
      }
    }
    if NotDeprecatedSince(init, k, i) && !DeprecatedAt(steps, k, n) {
      forall j: nat | i < j < |steps|
        ensures !DeprecatedAt(steps, k, j)
      {
        if j < n {
          CallsInPrefix(steps, k, j);
        }
      }
    }
  }

  lemma LastDeprecatedStep(steps: seq<Step>, k: Key)
    requires steps != []
    ensures var init, n := steps[..|steps| - 1], |steps| - 1;
      LastDeprecated(steps, k) <==>
        DeprecatedAt(steps, k, n) || (LastDeprecated(init, k) && !RevokedAt(steps, k, n))
  {
    var init, n := steps[..|steps| - 1], |steps| - 1;
    if DeprecatedAt(steps, k, n) {
      assert NotRevokedSince(steps, k, n);
    }
    forall i: nat | i < n
      ensures DeprecatedAt(steps, k, i) && NotRevokedSince(steps, k, i) <==>
        DeprecatedAt(init, k, i) && NotRevokedSince(init, k, i) && !RevokedAt(steps, k, n)
    {
      CallsInPrefix(steps, k, i);
      NotRevokedInPrefix(steps, k, i);
    }
    if LastDeprecated(init, k) && !RevokedAt(steps, k, n) {
      var i: nat :| i < |init| && DeprecatedAt(init, k, i) && NotRevokedSince(init, k, i);
      assert DeprecatedAt(steps, k, i) && NotRevokedSince(steps, k, i);
    }
  }

  lemma LastRevokedStep(steps: seq<Step>, k: Key)
    requires steps != []
    ensures var init, n := steps[..|steps| - 1], |steps| - 1;
      LastRevoked(steps, k) <==>
        RevokedAt(steps, k, n) || (LastRevoked(init, k) && !DeprecatedAt(steps, k, n))
  {
    var init, n := steps[..|steps| - 1], |steps| - 1;
    if RevokedAt(steps, k, n) {
      assert NotDeprecatedSince(steps, k, n);
    }
    forall i: nat | i < n
      ensures RevokedAt(steps, k, i) && NotDeprecatedSince(steps, k, i) <==>
        RevokedAt(init, k, i) && NotDeprecatedSince(init, k, i) && !DeprecatedAt(steps, k, n)
    {
      CallsInPrefix(steps, k, i);
      NotDeprecatedInPrefix(steps, k, i);
    }
    if LastRevoked(init, k) && !DeprecatedAt(steps, k, n) {
      var i: nat :| i < |init| && RevokedAt(init, k, i) && NotDeprecatedSince(init, k, i);
      assert RevokedAt(steps, k, i) && NotDeprecatedSince(steps, k, i);
    }
  }

  lemma StepAndLastCall(r: Registry, s: Step, k: Key)
    requires CardsOk(r) && k in Apply(r, s).cards
    ensures var status := Apply(r, s).cards[k].status;
      if k !in r.cards then status == Published
      else if s == DoDeprecate(k) then status == Deprecated
      else if s.DoRevoke? && s.key == k then status == Revoked
      else status == r.cards[k].status
  {
  }

  /** The status of a stored card is decided by the last deprecate or revoke call applied to
      it. A revoked card is therefore reported deprecated again, although its states are meant
      to move only forward, exactly when it was deprecated after its last revocation. */
  lemma {:induction false} StatusIsLastCall(steps: seq<Step>, k: Key)
    ensures k in Run(steps).cards ==>
      && (Run(steps).cards[k].status == Revoked <==> LastRevoked(steps, k))
      && (Run(steps).cards[k].status == Deprecated <==> LastDeprecated(steps, k))
    ensures k !in Run(steps).cards ==> !LastRevoked(steps, k) && !LastDeprecated(steps, k)
  {
    if steps != [] {
      var init, s := steps[..|steps| - 1], steps[|steps| - 1];
      StatusIsLastCall(init, k);
      LastRevokedStep(steps, k);
      LastDeprecatedStep(steps, k);
      RunIsSound(init);
      StepAndStatus(Run(init), s, k);
      if k in Run(steps).cards {
        StepAndLastCall(Run(init), s, k);
      }
    }
  }

  /** Looking up a card without a version never dangles, and on every run it returns a
      published card if and only if no deprecate call was applied to the pointed version. */
  lemma LatestLookup(steps: seq<Step>, capability: string)
    ensures var r := Run(steps); var found := Get(r, capability, None);
      && (found.Some? <==> capability in r.latest)
      && (found.Some? ==>
            (found.value.status == Published <==>
               !WasDeprecated(steps, (capability, r.latest[capability].0))))
  {
    RunIsSound(steps);
    var r := Run(steps);
    assert LatestOk(r, capability);
    if capability in r.latest {
      var k := (capability, r.latest[capability].0);
      RevokedIsHistory(steps, k);
      PublishedMeansUntouched(steps, k);
    }
  }

  // ---- Versions are immutable ----

  /** Call `i` publishes the version: a signed draft under a key no call published before. */
  ghost predicate PublishesAt(steps: seq<Step>, i: nat, k: Key) {
    && i < |steps| && steps[i].DoPublish? && (steps[i].card.capability, steps[i].card.version) == k
    && steps[i].card.status == Draft && steps[i].canSign && k !in Run(steps[..i]).cards
  }

  /** The stored card is the given one, up to its status and the reason of a revocation. */
  predicate HoldsCard(r: Registry, k: Key, card: Card) {
    && k in r.cards
    && r.cards[k].capability == card.capability && r.cards[k].version == card.version
    && r.cards[k].partner == card.partner && r.cards[k].body == card.body
  }

  lemma PublishStoresCard(r: Registry, s: Step)
    requires s.DoPublish? && s.card.status == Draft && s.canSign && s.card.CardKey() !in r.cards
    ensures HoldsCard(Apply(r, s), s.card.CardKey(), s.card)
  {
  }

  lemma StepKeepsCard(r: Registry, s: Step, k: Key, card: Card)
    requires HoldsCard(r, k, card)
    ensures HoldsCard(Apply(r, s), k, card)
  {
  }

  /** Whatever is called, a version stays the card of the one call that published it. */
  lemma {:induction false} VersionIsImmutable(steps: seq<Step>, i: nat, k: Key)
    requires PublishesAt(steps, i, k)
    ensures HoldsCard(Run(steps), k, steps[i].card)
  {
    var init, last := steps[..|steps| - 1], steps[|steps| - 1];
    if i < |init| {
      assert init[..i] == steps[..i];
      VersionIsImmutable(init, i, k);
      StepKeepsCard(Run(init), last, k, steps[i].card);
    } else {
      PublishStoresCard(Run(init), last);
    }
    assert HoldsCard(Apply(Run(init), last), k, steps[i].card);
  }

  lemma StepAddsCard(r: Registry, s: Step, k: Key)
    requires k !in r.cards && k in Apply(r, s).cards
    ensures s.DoPublish? && s.card.CardKey() == k && s.card.status == Draft && s.canSign
  {
  }

  lemma {:induction false} VersionHasOrigin(steps: seq<Step>, k: Key) returns (i: nat)
    requires k in Run(steps).cards
    ensures PublishesAt(steps, i, k)
  {
    var init, last := steps[..|steps| - 1], steps[|steps| - 1];
    if k in Run(init).cards {
      i := VersionHasOrigin(init, k);
      assert init[..i] == steps[..i];
    } else {
      i := |init|;
      StepAddsCard(Run(init), last, k);
    }
  }

  /** Looking up a version succeeds if and only if some call published it, and returns what that
      call published, whatever became of it since. */
  lemma VersionLookup(steps: seq<Step>, k: Key)
    ensures var found := Get(Run(steps), k.0, Some(k.1));
      && (found.Some? <==> exists i: nat :: PublishesAt(steps, i, k))
      && forall i: nat :: PublishesAt(steps, i, k) ==>
           found.Some? && found.value.CardKey() == k
           && found.value.partner == steps[i].card.partner && found.value.body == steps[i].card.body
  {
    assert (k.0, k.1) == k;
    if k in Run(steps).cards {
      var i := VersionHasOrigin(steps, k);
    }
    forall i: nat | PublishesAt(steps, i, k)
      ensures HoldsCard(Run(steps), k, steps[i].card)
    {
      VersionIsImmutable(steps, i, k);
    }
  }

  lemma StepAndReason(r: Registry, s: Step, k: Key)
    requires k in r.cards
    ensures k in Apply(r, s).cards
    ensures Apply(r, s).cards[k].revokeReason ==
      if s.DoRevoke? && s.key == k then Some(s.reason) else r.cards[k].revokeReason
  {
  }

  /** The reason a card shows is that of its last revocation. */
  lemma {:induction false} ReasonIsLast(steps: seq<Step>, i: nat, k: Key)
    requires i < |steps| && RevokedAt(steps, k, i) && NotRevokedSince(steps, k, i)
    ensures k in Run(steps).cards && Run(steps).cards[k].revokeReason == Some(steps[i].reason)
  {
    var init, last := steps[..|steps| - 1], steps[|steps| - 1];
    if i < |init| {
      CallsInPrefix(steps, k, i);
      NotRevokedInPrefix(steps, k, i);
      ReasonIsLast(init, i, k);
    }
    StepAndReason(Run(init), last, k);
  }

  // ---- Which version a revoke promotes ----

  /** The other published versions of a capability, oldest first. */
  function Remaining(keys: seq<Key>, cards: map<Key, Card>, revoked: Key): seq<Key> {
    if keys == [] then []
    else (if Promotable(cards, revoked, keys[0]) then [keys[0]] else []) + Remaining(keys[1..], cards, revoked)
  }

  lemma {:induction false} RemainingAre(keys: seq<Key>, cards: map<Key, Card>, revoked: Key)
    requires Distinct(keys)
    ensures Distinct(Remaining(keys, cards, revoked))
    ensures forall k :: k in Remaining(keys, cards, revoked) <==> k in keys && Promotable(cards, revoked, k)
  {
    if keys != [] {
      assert keys == [keys[0]] + keys[1..];
      assert forall i :: 0 <= i < |keys| - 1 ==> keys[1..][i] == keys[i + 1];
      RemainingAre(keys[1..], cards, revoked);
      assert keys[0] !in keys[1..];
    }
  }

  lemma {:induction false} SuccessorIsOldest(keys: seq<Key>, cards: map<Key, Card>, revoked: Key)
    ensures var rest := Remaining(keys, cards, revoked);
      Successor(keys, cards, revoked) == if rest == [] then None else Some(rest[0])
  {
    if keys != [] {
      SuccessorIsOldest(keys[1..], cards, revoked);
    }
  }

  /** The pointer after version `k` was revoked: gone if no version remains published,
      otherwise on the oldest of them. That is the newest if and only if just one remains. */
  ghost predicate PointsToOldest(s: Registry, k: Key) {
    var rest := Remaining(s.keys, s.cards, k);
    && (rest == [] <==> k.0 !in s.latest)
    && (rest != [] ==>
          && rest[0] in s.cards
          && s.latest[k.0] == (rest[0].1, s.cards[rest[0]].partner)
          && ((k.0, s.latest[k.0].0) == rest[|rest| - 1] <==> |rest| == 1))
  }

  /** Revoking the pointed version promotes the oldest remaining published one, although the
      lookup is documented to return the latest. */
  lemma RevokePromotesOldest(steps: seq<Step>, k: Key, reason: string)
    requires var r := Run(steps); k in r.cards && k.0 in r.latest && r.latest[k.0].0 == k.1
    ensures var s := Revoke(Run(steps), k, reason);
      && PointsToOldest(s, k)
      && forall other :: other in Remaining(s.keys, s.cards, k) <==>
           other in s.cards && other.0 == k.0 && s.cards[other].status == Published
  {
    RunIsSound(steps);
    RemainingPublished(Run(steps), k, reason);
    RevokeMovesPointer(Run(steps), k, reason);
  }

  lemma RevokeMovesPointer(r: Registry, k: Key, reason: string)
    requires k in r.cards && k.0 in r.latest && r.latest[k.0].0 == k.1 && Distinct(r.keys)
    ensures PointsToOldest(Revoke(r, k, reason), k)
  {
    var s := Revoke(r, k, reason);
    var rest := Remaining(s.keys, s.cards, k);
    RemainingAre(s.keys, s.cards, k);
    SuccessorIsOldest(s.keys, s.cards, k);
    if rest != [] {
      assert rest[0] in rest && rest[|rest| - 1] in rest;
      assert (k.0, rest[0].1) == rest[0];
    }
  }

  lemma RemainingPublished(r: Registry, k: Key, reason: string)
    requires CardsOk(r) && k in r.cards
    ensures var s := Revoke(r, k, reason); var rest := Remaining(s.keys, s.cards, k);
      && Distinct(rest)
      && forall other :: other in rest <==>
           other in s.cards && other.0 == k.0 && s.cards[other].status == Published
  {
    var s := Revoke(r, k, reason);
    RemainingAre(r.keys, s.cards, k);
    forall other
      ensures other in r.keys && Promotable(s.cards, k, other) <==>
        other in s.cards && other.0 == k.0 && s.cards[other].status == Published
    {
      assert other == k <==> other.0 == k.0 && other.1 == k.1;
    }
  }

  /** A plain publish never moves an existing pointer. */
  lemma PublishKeepsPointer(r: Registry, card: Card, canSign: bool, capability: string)
    requires capability in r.latest
    ensures capability in Publish(r, card, canSign, false).latest
    ensures Publish(r, card, canSign, false).latest[capability] == r.latest[capability]
  {
  }

  function DraftCard(version: string): Card {
    Card("capability", version, "partner", "body", Draft, None)
  }

  /** Three versions are published and the third is revoked: the pointer goes back to the
      first although the second is published and was never revoked. */
  lemma RevokeSkipsNewer()
    ensures var steps := [DoPublish(DraftCard("1"), true, true)] + [DoPublish(DraftCard("2"), true, true)]
                         + [DoPublish(DraftCard("3"), true, true)] + [DoRevoke(("capability", "3"), "reason")];
      var r := Run(steps);
      && "capability" in r.latest && r.latest["capability"].0 == "1"
      && ("capability", "2") in r.cards && r.cards[("capability", "2")].status == Published
  {
    var p1, p2, p3 := DoPublish(DraftCard("1"), true, true), DoPublish(DraftCard("2"), true, true),
                      DoPublish(DraftCard("3"), true, true);
    var revoke := DoRevoke(("capability", "3"), "reason");
    RunExtends([], p1);
    assert [] + [p1] == [p1];
    RunExtends([p1], p2);
    RunExtends([p1] + [p2], p3);
    RunExtends([p1] + [p2] + [p3], revoke);
    var r := Run([p1] + [p2] + [p3]);
    assert r.keys == [("capability", "1"), ("capability", "2"), ("capability", "3")];
    assert Successor(r.keys, r.cards, ("capability", "3")) == Some(("capability", "1"));
  }

  // ---- The registry object ----

  class PublishedRegistry {
    var keys: seq<Key>
    var byVersion: map<Key, Card>
    var latest: map<string, (string, string)>
    var byPartner: map<string, set<Key>>
    ghost var everRevoked: set<Key>
    ghost var steps: seq<Step>

    ghost function View(): Registry
      reads this
    {
      Registry(keys, byVersion, latest, byPartner, everRevoked)
    }

    /** The fields are what the history of calls gives. */
    ghost predicate Valid()
      reads this
    {
      View() == Run(steps)
    }

    constructor ()
      ensures Valid() && steps == []
    {
      keys, byVersion, latest, byPartner, everRevoked := [], map[], map[], map[], {};
      steps := [];
    }

    method PublishCard(card: Card, canSign: bool) returns (r: Result<Card, PublishError>)
      requires Valid()
      modifies this
      ensures Valid() && steps == old(steps) + [DoPublish(card, canSign, false)]
      ensures r.Err? <==> PublishVerdict(old(View()), card, canSign).Some?
      ensures r.Err? ==> View() == old(View()) && Some(r.error) == PublishVerdict(old(View()), card, canSign)
      ensures r.Ok? ==> r.value == card.(status := Published)
    {
      ghost var before := View();
      RunExtends(steps, DoPublish(card, canSign, false));
      steps := steps + [DoPublish(card, canSign, false)];
      if card.status != Draft {
        return Err(NotADraft);
      }
      if card.CardKey() in byVersion {
        return Err(AlreadyPublished);
      }
      if !canSign {
        return Err(NoSigningKey);
      }
      var signed := card.(status := Published);
      AddCard(signed);
      if card.capability !in latest {
        latest := latest[card.capability := (card.version, card.partner)];
      }
      assert View() == Publish(before, card, canSign, false);
      return Ok(signed);
    }

    method AddCard(card: Card)
      requires card.CardKey() !in byVersion
      modifies this`keys, this`byVersion, this`byPartner
      ensures keys == old(keys) + [card.CardKey()] && byVersion == old(byVersion)[card.CardKey() := card]
      ensures byPartner == old(byPartner)[card.partner := IndexOf(old(View()), card.partner) + {card.CardKey()}]
    {
      keys := keys + [card.CardKey()];
      byVersion := byVersion[card.CardKey() := card];
      byPartner := byPartner[card.partner :=
        (if card.partner in byPartner then byPartner[card.partner] else {}) + {card.CardKey()}];
    }

    method PublishNewVersion(card: Card, canSign: bool) returns (r: Result<Card, PublishError>)
      requires Valid()
      modifies this
      ensures Valid() && steps == old(steps) + [DoPublish(card, canSign, true)]
      ensures r.Err? <==> PublishVerdict(old(View()), card, canSign).Some?
      ensures r.Ok? ==> r.value == card.(status := Published) && latest[card.capability] == (card.version, card.partner)
    {
      ghost var calls := steps;
      RunExtends(calls, DoPublish(card, canSign, false));
      RunExtends(calls, DoPublish(card, canSign, true));
      r := PublishCard(card, canSign);
      if r.Ok? {
        latest := latest[card.capability := (card.version, card.partner)];
      }
      steps := calls + [DoPublish(card, canSign, true)];
    }

    method DeprecateCard(k: Key) returns (r: Result<Card, PublishError>)
      requires Valid()
      modifies this
      ensures Valid() && steps == old(steps) + [DoDeprecate(k)]
      ensures r == if k in old(byVersion) then Ok(old(byVersion)[k].(status := Deprecated)) else Err(UnknownCard)
    {
      RunExtends(steps, DoDeprecate(k));
      steps := steps + [DoDeprecate(k)];
      if k !in byVersion {
        return Err(UnknownCard);
      }
      var updated := byVersion[k].(status := Deprecated);
      byVersion := byVersion[k := updated];
      return Ok(updated);
    }

    /** The search for a version to promote, in insertion order. */
    method FindSuccessor(k: Key) returns (next: Option<Key>)
      ensures next == Successor(keys, byVersion, k)
      ensures next.Some? ==> next.value in byVersion
    {
      for i := 0 to |keys|
        invariant Successor(keys, byVersion, k) == Successor(keys[i..], byVersion, k)
      {
        var other := keys[i];
        if other in byVersion && other.0 == k.0 && byVersion[other].status == Published && other.1 != k.1 {
          return Some(other);
        }
        assert keys[i..][1..] == keys[i + 1..];
      }
      return None;
    }

    method RevokeCard(k: Key, reason: string) returns (r: Result<Card, PublishError>)
      requires Valid()
      modifies this
      ensures Valid() && steps == old(steps) + [DoRevoke(k, reason)]
      ensures r == if k in old(byVersion)
                   then Ok(old(byVersion)[k].(status := Revoked, revokeReason := Some(reason)))
                   else Err(UnknownCard)
    {
      RunExtends(steps, DoRevoke(k, reason));
      steps := steps + [DoRevoke(k, reason)];
      if k !in byVersion {
        return Err(UnknownCard);
      }
      var updated := byVersion[k].(status := Revoked, revokeReason := Some(reason));
      byVersion := byVersion[k := updated];
      if k.0 in latest && latest[k.0].0 == k.1 {
        var next := FindSuccessor(k);
        if next.Some? {
          latest := latest[k.0 := (next.value.1, byVersion[next.value].partner)];
        } else {
          latest := latest - {k.0};
        }
      }
      if updated.partner in byPartner {
        byPartner := byPartner[updated.partner := byPartner[updated.partner] - {k}];
      }
      everRevoked := everRevoked + {k};
      return Ok(updated);
    }

    method GetCard(capability: string, version: Option<string>) returns (r: Option<Card>)
      requires Valid()
      ensures r == Get(View(), capability, version)
      ensures version.None? ==> (r.Some? <==> capability in latest)
      ensures version.Some? ==> (r.Some? <==> exists i: nat :: PublishesAt(steps, i, (capability, version.value)))
    {
      LatestLookup(steps, capability);
      if version.Some? {
        VersionLookup(steps, (capability, version.value));
      }
      if version.Some? {
        var k := (capability, version.value);
        return if k in byVersion then Some(byVersion[k]) else None;
      }
      if capability !in latest {
        return None;
      }
      return Some(byVersion[(capability, latest[capability].0)]);
    }

    /** Every listed key is stored, so the listing never fails; it is that partner's
        never-revoked cards, in the order of their keys. */
    method ListForPartner(partner: string) returns (listed: seq<Card>)
      requires Valid()
      ensures forall c :: c in listed <==>
        c.CardKey() in byVersion && byVersion[c.CardKey()] == c && c.partner == partner
        && !WasRevoked(steps, c.CardKey())
      ensures forall i, j :: 0 <= i < j < |listed| ==>
        || StrLess(listed[i].capability, listed[j].capability)
        || (listed[i].capability == listed[j].capability && StrLess(listed[i].version, listed[j].version))
    {
      RunIsSound(steps);
      forall k { PartnerIndexMatchesHistory(steps, partner, k); }
      var index := if partner in byPartner then byPartner[partner] else {};
      var sorted := SortedKeys(index);
      listed := [];
      for i := 0 to |sorted|
        invariant |listed| == i
        invariant forall j :: 0 <= j < i ==>
          sorted[j] in byVersion && listed[j] == byVersion[sorted[j]] && listed[j].CardKey() == sorted[j]
      {
        assert sorted[i] in index;
        listed := listed + [byVersion[sorted[i]]];
      }
      forall c: Card | c.CardKey() in index && byVersion[c.CardKey()] == c
        ensures c in listed
      {
        var j :| 0 <= j < |sorted| && sorted[j] == c.CardKey();
        assert listed[j] == c;
      }
    }
  }

  // ---- Key order ----

  /** Lexicographic order of pairs of strings. */
  predicate KeyLess(a: Key, b: Key) {
    StrLess(a.0, b.0) || (a.0 == b.0 && StrLess(a.1, b.1))
  }

  ghost predicate Ascending(keys: seq<Key>) {
    forall i, j :: 0 <= i < j < |keys| ==> KeyLess(keys[i], keys[j])
  }

  lemma KeyLessTransitive(a: Key, b: Key, c: Key)
    requires KeyLess(a, b) && KeyLess(b, c)
    ensures KeyLess(a, c)
  {
    if StrLess(a.0, b.0) && StrLess(b.0, c.0) {
      StrTransitive(a.0, b.0, c.0);
    } else if a.0 == b.0 == c.0 {
      StrTransitive(a.1, b.1, c.1);
    }
  }

  function InsertKey(k: Key, keys: seq<Key>): seq<Key> {
    if keys == [] || KeyLess(k, keys[0]) then [k] + keys else [keys[0]] + InsertKey(k, keys[1..])
  }

  lemma {:induction false} InsertKeepsAscending(k: Key, keys: seq<Key>)
    requires Ascending(keys) && k !in keys
    ensures Ascending(InsertKey(k, keys))
    ensures forall x :: x in InsertKey(k, keys) <==> x == k || x in keys
  {
    if keys == [] {
    } else if KeyLess(k, keys[0]) {
      forall j | 0 <= j < |keys|
        ensures KeyLess(k, keys[j])
      {
        if j > 0 {
          KeyLessTransitive(k, keys[0], keys[j]);
        }
      }
    } else {
      assert keys == [keys[0]] + keys[1..];
      InsertKeepsAscending(k, keys[1..]);
      StrTotal(k.0, keys[0].0);
      StrTotal(k.1, keys[0].1);
      assert k != keys[0];
      forall x | x in InsertKey(k, keys[1..])
        ensures KeyLess(keys[0], x)
      {
      }
    }
  }

  method SortedKeys(index: set<Key>) returns (keys: seq<Key>)
    ensures Ascending(keys) && forall k :: k in keys <==> k in index
  {
    keys := [];
    var todo := index;
    while todo != {}
      invariant todo <= index && Ascending(keys)
      invariant forall k :: k in keys <==> k in index && k !in todo
      decreases todo
    {
      var k :| k in todo;
      InsertKeepsAscending(k, keys);
      keys := InsertKey(k, keys);
      todo := todo - {k};
    }
  }

  lemma RunExtends(steps: seq<Step>, s: Step)
    ensures Run(steps + [s]) == Apply(Run(steps), s)
  {
    assert (steps + [s])[..|steps|] == steps;
  }
}
