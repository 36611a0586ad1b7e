/** What a commons discloses to whom: from everything on disk and the secrets of
    any coalition, the keys and texts that can be learned are exactly those that
    grants to its members were ever made for. */
module Disclosure {
  import opened Terms
  import opened Closes
  import opened Grants
  import opened Seals
  import opened Commons
  import opened Keyring
  import opened Upkeep
  import opened Secrecy

  // ---- what lies open on disk ------------------------------------------------------------

  ghost predicate InObjects(s: State, box: Box) {
    exists c :: c in s.objects && (box == s.objects[c].shapeCt || box == s.objects[c].contentCt)
  }

  ghost predicate OnShelf(s: State, g: Grant) {
    exists who :: g in GrantsOf(s, who)
  }

  ghost predicate WrappedIn(g: Grant, box: Box) {
    g.body.wrapped.Some? && g.body.wrapped.value.ct == box
  }

  /** Wrapped in a grant of anyone, or in a grant it was passed on from. */
  ghost predicate InGrants(s: State, box: Box) {
    exists g, k: nat :: OnShelf(s, g) && k < |Lineage(g)| && WrappedIn(Lineage(g)[k], box)
  }

  /** Everything on disk, some texts known otherwise, and what the holders of some
      Diffie-Hellman secrets can agree on with anyone. */
  ghost function Knowledge(s: State, secrets: iset<nat>, texts: iset<Text>): iset<Item> {
    (iset text | text in texts :: Plain(text))
    + (iset a: nat, b: nat | a in secrets || b in secrets :: AsKey(Shared(a, b)))
    + (iset box | InObjects(s, box) || InChains(s.closes, box) || InGrants(s, box) :: Boxed(box))
  }

  ghost predicate NoKeys(texts: iset<Text>) {
    forall text :: text in texts ==> !text.KeyText?
  }

  ghost predicate GrantedBy(
    s: State, secrets: iset<nat>, close: CloseId, facet: Facet, epoch: nat, who: string, g: Grant)
  {
    && who in s.people && s.people[who].dh in secrets
    && g.body.close == close && facet.AtMost(g.body.facet) && epoch <= g.body.epoch
  }

  /** Some member of the coalition was granted the facet of the close at this
      epoch or later, whether or not the grant is still alive. */
  ghost predicate Granted(s: State, secrets: iset<nat>, close: CloseId, facet: Facet, epoch: nat) {
    exists who, g :: g in GrantsOf(s, who) && GrantedBy(s, secrets, close, facet, epoch, who, g)
  }

  // ---- discretion ------------------------------------------------------------------------

  /** Sealed under the true keys of its close, and not a bare key kept as a file. */
  ghost predicate WellSealed(o: SealedObject, closes: Records) {
    && o.close in closes
    && !o.contentCt.text.KeyText?
    && exists card :: SealedUnder(o, closes[o.close], card, o.contentCt.text)
  }

  ghost predicate ObjectsDiscreet(objects: Objects, closes: Records) {
    forall c :: c in objects ==> WellSealed(objects[c], closes)
  }

  /** The grant's ephemeral secret was thrown away, and the grant it was passed
      on from is on a shelf. */
  ghost predicate GrantDiscreet(s: State, secrets: iset<nat>, g: Grant) {
    && (g.body.wrapped.Some? ==> g.body.wrapped.value.epk.secret !in secrets)
    && (g.body.parent.Some? ==> OnShelf(s, g.body.parent.value))
  }

  ghost predicate GrantsDiscreet(s: State, secrets: iset<nat>) {
    forall g :: OnShelf(s, g) ==> GrantDiscreet(s, secrets, g)
  }

  ghost predicate Discreet(s: State, secrets: iset<nat>) {
    SeedsApart(s.closes) && ObjectsDiscreet(s.objects, s.closes) && GrantsDiscreet(s, secrets)
  }

  // ---- the last epochs granted --------------------------------------------------------------

  /** The last epoch up to `n` that was granted, or -1. */
  ghost function LastGranted(s: State, secrets: iset<nat>, close: CloseId, facet: Facet, n: nat): int {
    if Granted(s, secrets, close, facet, n) then n
    else if n == 0 then -1
    else LastGranted(s, secrets, close, facet, n - 1)
  }

  lemma {:induction false} LastGrantedIs(s: State, secrets: iset<nat>, close: CloseId, facet: Facet, n: nat, i: nat)
    requires i <= n
    ensures i <= LastGranted(s, secrets, close, facet, n) <==> Granted(s, secrets, close, facet, i)
  {
    if Granted(s, secrets, close, facet, n) {
      var who, g :| g in GrantsOf(s, who) && GrantedBy(s, secrets, close, facet, n, who, g);
      assert GrantedBy(s, secrets, close, facet, i, who, g);
    } else if i < n {
      LastGrantedIs(s, secrets, close, facet, n - 1, i);
    } else if n > 0 {
      LastIsNoMore(s, secrets, close, facet, n - 1);
    }
  }

  lemma {:induction false} LastIsNoMore(s: State, secrets: iset<nat>, close: CloseId, facet: Facet, n: nat)
    ensures LastGranted(s, secrets, close, facet, n) <= n
  {
    if n > 0 {
      LastIsNoMore(s, secrets, close, facet, n - 1);
    }
  }

  ghost function LastEpoch(s: State, close: CloseId): nat {
    if close in s.closes then |s.closes[close].chain| else 0
  }

  /** What the coalition holds. */
  ghost function ReachOf(s: State, secrets: iset<nat>, hidden: iset<Text>): Reach {
    Reach(secrets,
          (id: CloseId) => LastGranted(s, secrets, id, Content, LastEpoch(s, id)),
          (id: CloseId) => LastGranted(s, secrets, id, Shape, LastEpoch(s, id)),
          hidden)
  }

  lemma ReachIsBounded(s: State, secrets: iset<nat>, hidden: iset<Text>)
    requires Inv(s) && SeedsApart(s.closes) && NoKeys(hidden)
    ensures Bounds(s.closes, ReachOf(s, secrets, hidden))
  {
  }

  /** A facet key is safe exactly if it was granted. */
  lemma SafeIffGranted(s: State, secrets: iset<nat>, hidden: iset<Text>, close: CloseId, facet: Facet, i: nat)
    requires Inv(s) && SeedsApart(s.closes) && NoKeys(hidden)
    requires Epoch(s.closes, close, i) && facet != Presence
    ensures SafeKey(s.closes, ReachOf(s, secrets, hidden), TrueFacetKey(s.closes[close], facet, i).value)
       <==> Granted(s, secrets, close, facet, i)
  {
    var k := ReachOf(s, secrets, hidden);
    ReachIsBounded(s, secrets, hidden);
    ContentIsSafeIff(s.closes, k, close, i);
    ShapeIsSafeIff(s.closes, k, close, i);
    LastGrantedIs(s, secrets, close, Content, LastEpoch(s, close), i);
    LastGrantedIs(s, secrets, close, Shape, LastEpoch(s, close), i);
    if Granted(s, secrets, close, Content, i) {
      var who, g :| g in GrantsOf(s, who) && GrantedBy(s, secrets, close, Content, i, who, g);
      assert GrantedBy(s, secrets, close, Shape, i, who, g);
    }
  }

  // ---- nothing more than granted ----------------------------------------------------------

  /** A grant's wrapped key: under a secret agreed between the holder and the
      ephemeral key, the true key of its facet. */
  lemma WrappedKeyIs(s: State, who: string, g: Grant)
    requires Inv(s) && g in GrantsOf(s, who) && g.body.wrapped.Some?
    ensures who in s.people && Epoch(s.closes, g.body.close, g.body.epoch) && g.body.facet != Presence
    ensures var w := g.body.wrapped.value;
            && w.ct.key == Derived(ForWrap, Agree(s.people[who].dh, w.epk), OfDh(w.epk))
            && w.ct.text == KeyText(TrueFacetKey(s.closes[g.body.close], g.body.facet, g.body.epoch).value)
  {
    assert GrantOk(s, who, g);
  }

  lemma {:induction false} LineageIsOnShelves(s: State, secrets: iset<nat>, g: Grant, k: nat)
    requires GrantsDiscreet(s, secrets) && OnShelf(s, g) && k < |Lineage(g)|
    ensures OnShelf(s, Lineage(g)[k])
    decreases k
  {
    assert GrantDiscreet(s, secrets, g);
    if k > 0 {
      LineageIsOnShelves(s, secrets, g.body.parent.value, k - 1);
    }
  }

  lemma GrantBoxIsSafe(s: State, secrets: iset<nat>, hidden: iset<Text>, who: string, g: Grant)
    requires Inv(s) && Discreet(s, secrets) && NoKeys(hidden)
    requires g in GrantsOf(s, who) && g.body.wrapped.Some?
    ensures SafeItem(s.closes, ReachOf(s, secrets, hidden), Boxed(g.body.wrapped.value.ct))
  {
    var k, box := ReachOf(s, secrets, hidden), g.body.wrapped.value.ct;
    WrappedKeyIs(s, who, g);
    ReachIsBounded(s, secrets, hidden);
    assert OnShelf(s, g) && GrantDiscreet(s, secrets, g);
    if s.people[who].dh !in secrets {
      assert ForOthers(box, secrets);
      BoxIsSafe(s.closes, k, box);
    } else {
      assert GrantedBy(s, secrets, g.body.close, g.body.facet, g.body.epoch, who, g);
      SafeIffGranted(s, secrets, hidden, g.body.close, g.body.facet, g.body.epoch);
    }
  }

  /** The coalition was granted what opens a box of the object holding the text. */
  ghost predicate ShownBy(s: State, secrets: iset<nat>, o: SealedObject, text: Text) {
    || (o.contentCt.text == text && Granted(s, secrets, o.close, o.kind.PayloadFacet(), o.epoch))
    || (o.shapeCt.text == text && Granted(s, secrets, o.close, Shape, o.epoch))
  }

  ghost predicate Shown(s: State, secrets: iset<nat>, text: Text) {
    exists c :: c in s.objects && ShownBy(s, secrets, s.objects[c], text)
  }

  /** Texts that the coalition neither knows otherwise nor was granted. */
  ghost predicate Hidden(s: State, secrets: iset<nat>, texts: iset<Text>, hidden: iset<Text>) {
    NoKeys(texts) && NoKeys(hidden) && forall text :: text in hidden ==> text !in texts && !Shown(s, secrets, text)
  }

  /** An object's box is under a key derived from the facet key of its epoch. */
  lemma ObjectKeyIsSafeIff(
    s: State, secrets: iset<nat>, hidden: iset<Text>, close: CloseId, facet: Facet, i: nat, plain: PlainId)
    requires Inv(s) && SeedsApart(s.closes) && NoKeys(hidden)
    requires Epoch(s.closes, close, i) && facet != Presence
    ensures SafeKey(s.closes, ReachOf(s, secrets, hidden),
                    ObjectKey(TrueFacetKey(s.closes[close], facet, i).value, plain))
       <==> Granted(s, secrets, close, facet, i)
  {
    SafeIffGranted(s, secrets, hidden, close, facet, i);
  }

  lemma ObjectIsSafe(s: State, secrets: iset<nat>, texts: iset<Text>, hidden: iset<Text>, c: CipherId)
    requires Inv(s) && Discreet(s, secrets) && Hidden(s, secrets, texts, hidden) && c in s.objects
    ensures SafeItem(s.closes, ReachOf(s, secrets, hidden), Boxed(s.objects[c].contentCt))
    ensures SafeItem(s.closes, ReachOf(s, secrets, hidden), Boxed(s.objects[c].shapeCt))
  {
    var o := s.objects[c];
    assert WellSealed(o, s.closes);
    ObjectKeyIsSafeIff(s, secrets, hidden, o.close, o.kind.PayloadFacet(), o.epoch, o.plain);
    ObjectKeyIsSafeIff(s, secrets, hidden, o.close, Shape, o.epoch, o.plain);
    assert o.contentCt.text in hidden ==> !ShownBy(s, secrets, o, o.contentCt.text);
    assert o.shapeCt.text in hidden ==> !ShownBy(s, secrets, o, o.shapeCt.text);
  }

  lemma KnowledgeIsSafe(s: State, secrets: iset<nat>, texts: iset<Text>, hidden: iset<Text>, item: Item)
    requires Inv(s) && Discreet(s, secrets) && Hidden(s, secrets, texts, hidden)
    requires item in Knowledge(s, secrets, texts)
    ensures SafeItem(s.closes, ReachOf(s, secrets, hidden), item)
  {
    ReachIsBounded(s, secrets, hidden);
    if item.Boxed? {
      var box := item.box;
      if InObjects(s, box) {
        var c :| c in s.objects && (box == s.objects[c].shapeCt || box == s.objects[c].contentCt);
        ObjectIsSafe(s, secrets, texts, hidden, c);
      } else if InChains(s.closes, box) {
        ChainIsSafe(s.closes, ReachOf(s, secrets, hidden), box);
      } else {
        var g, k: nat :| OnShelf(s, g) && k < |Lineage(g)| && WrappedIn(Lineage(g)[k], box);
        LineageIsOnShelves(s, secrets, g, k);
        var who :| Lineage(g)[k] in GrantsOf(s, who);
        GrantBoxIsSafe(s, secrets, hidden, who, Lineage(g)[k]);
      }
    }
  }

  lemma UnsafeStaysSecret(s: State, secrets: iset<nat>, texts: iset<Text>, hidden: iset<Text>, text: Text)
    requires Inv(s) && Discreet(s, secrets) && Hidden(s, secrets, texts, hidden)
    requires !SafeText(s.closes, ReachOf(s, secrets, hidden), text)
    ensures !Learnable(Knowledge(s, secrets, texts), text)
  {
    var k, known := ReachOf(s, secrets, hidden), Knowledge(s, secrets, texts);
    ReachIsBounded(s, secrets, hidden);
    forall item | item in known ensures SafeItem(s.closes, k, item) {
      KnowledgeIsSafe(s, secrets, texts, hidden, item);
    }
    UnsafeIsSecret(s.closes, k, known, text);
  }

  // ---- nothing less ------------------------------------------------------------------------

  /** How a holder unwraps the key of a grant. */
  ghost function Unwrapping(g: Grant, dh: nat): Recipe
    requires g.body.wrapped.Some?
  {
    var w := g.body.wrapped.value;
    OpenUp(Given(Boxed(w.ct)), Derive(ForWrap, Given(AsKey(Agree(dh, w.epk))), OfDh(w.epk)))
  }

  lemma UnwrappingYields(s: State, secrets: iset<nat>, texts: iset<Text>, who: string, g: Grant)
    requires Inv(s) && g in GrantsOf(s, who) && g.body.facet != Presence
    requires who in s.people && s.people[who].dh in secrets
    ensures g.body.wrapped.Some? && Epoch(s.closes, g.body.close, g.body.epoch)
    ensures Yield(Knowledge(s, secrets, texts), Unwrapping(g, s.people[who].dh))
         == Some(AsKey(TrueFacetKey(s.closes[g.body.close], g.body.facet, g.body.epoch).value))
  {
    assert GrantOk(s, who, g);
    WrappedKeyIs(s, who, g);
    var known, w := Knowledge(s, secrets, texts), g.body.wrapped.value;
    assert OnShelf(s, g) && Lineage(g)[0] == g && WrappedIn(Lineage(g)[0], w.ct);
    assert InGrants(s, w.ct);
    assert Boxed(w.ct) in known;
    var agreed := AsKey(Agree(s.people[who].dh, w.epk));
    assert agreed in known;
    assert Yield(known, Given(agreed)) == Some(agreed);
    assert Yield(known, Derive(ForWrap, Given(agreed), OfDh(w.epk))) == Some(AsKey(w.ct.key));
  }

  lemma KnowledgeHasChains(s: State, secrets: iset<nat>, texts: iset<Text>, close: CloseId)
    requires close in s.closes
    ensures KnowsChain(s.closes[close], Knowledge(s, secrets, texts))
  {
    forall box | box in ChainBoxes(s.closes[close]) ensures Boxed(box) in Knowledge(s, secrets, texts) {
      assert InChains(s.closes, box);
    }
  }

  lemma GrantedIsComputable(s: State, secrets: iset<nat>, texts: iset<Text>, close: CloseId, facet: Facet, epoch: nat)
    requires Inv(s) && close in s.closes && facet != Presence && Granted(s, secrets, close, facet, epoch)
    ensures Epoch(s.closes, close, epoch)
    ensures Computable(Knowledge(s, secrets, texts), TrueFacetKey(s.closes[close], facet, epoch).value)
  {
    var who, g :| g in GrantsOf(s, who) && GrantedBy(s, secrets, close, facet, epoch, who, g);
    var r, known := s.closes[close], Knowledge(s, secrets, texts);
    UnwrappingYields(s, secrets, texts, who, g);
    var start := Unwrapping(g, s.people[who].dh);
    KnowledgeHasChains(s, secrets, texts, close);
    if g.body.facet == Content {
      ContentKeyGives(r, known, start, g.body.epoch, epoch);
    } else {
      ShapeKeyGives(r, known, start, g.body.epoch, epoch);
    }
  }

  lemma GrantOpensBox(
    s: State, secrets: iset<nat>, texts: iset<Text>, close: CloseId, facet: Facet, epoch: nat, plain: PlainId, box: Box)
    requires Inv(s) && Epoch(s.closes, close, epoch) && facet != Presence && Granted(s, secrets, close, facet, epoch)
    requires InObjects(s, box) && box.key == ObjectKey(TrueFacetKey(s.closes[close], facet, epoch).value, plain)
    ensures Learnable(Knowledge(s, secrets, texts), box.text)
  {
    var known, facetKey := Knowledge(s, secrets, texts), TrueFacetKey(s.closes[close], facet, epoch).value;
    GrantedIsComputable(s, secrets, texts, close, facet, epoch);
    DerivedIsComputable(known, ForObject, facetKey, OfPlain(plain));
    var c :| Yield(known, c) == Some(Plain(KeyText(box.key)));
    assert Boxed(box) in known;
    assert Yield(known, OpenUp(Given(Boxed(box)), c)) == Some(Plain(box.text));
  }

  lemma ShownIsLearnable(s: State, secrets: iset<nat>, texts: iset<Text>, c: CipherId, text: Text)
    requires Inv(s) && Discreet(s, secrets) && c in s.objects && ShownBy(s, secrets, s.objects[c], text)
    ensures Learnable(Knowledge(s, secrets, texts), text)
  {
    var o := s.objects[c];
    assert WellSealed(o, s.closes);
    if o.contentCt.text == text && Granted(s, secrets, o.close, o.kind.PayloadFacet(), o.epoch) {
      GrantOpensBox(s, secrets, texts, o.close, o.kind.PayloadFacet(), o.epoch, o.plain, o.contentCt);
    } else {
      GrantOpensBox(s, secrets, texts, o.close, Shape, o.epoch, o.plain, o.shapeCt);
    }
  }

  // ---- exactly what was granted --------------------------------------------------------------

  /** From everything on disk, all the secrets of a coalition and whatever texts
      they know, a content or shape key of any close and epoch can be computed
      exactly if some member was ever granted it. Expiry and verification take no
      key away. */
  lemma KeysDisclosedIff(s: State, secrets: iset<nat>, texts: iset<Text>, close: CloseId, facet: Facet, epoch: nat)
    requires Inv(s) && Discreet(s, secrets) && NoKeys(texts)
    requires Epoch(s.closes, close, epoch) && facet != Presence
    ensures Computable(Knowledge(s, secrets, texts), TrueFacetKey(s.closes[close], facet, epoch).value)
       <==> Granted(s, secrets, close, facet, epoch)
  {
    if Granted(s, secrets, close, facet, epoch) {
      GrantedIsComputable(s, secrets, texts, close, facet, epoch);
    } else {
      SafeIffGranted(s, secrets, iset{}, close, facet, epoch);
      UnsafeStaysSecret(s, secrets, texts, iset{}, KeyText(TrueFacetKey(s.closes[close], facet, epoch).value));
    }
  }

  /** A text they do not know otherwise, be it a file, a listing, a commit, a move
      or a label, can be learned exactly if it is sealed somewhere in the store
      under a facet of a close that some member was granted at that epoch or later. */
  lemma TextsDisclosedIff(s: State, secrets: iset<nat>, texts: iset<Text>, text: Text)
    requires Inv(s) && Discreet(s, secrets) && NoKeys(texts)
    requires text !in texts && !text.KeyText?
    ensures Learnable(Knowledge(s, secrets, texts), text) <==> Shown(s, secrets, text)
  {
    if Shown(s, secrets, text) {
      var c :| c in s.objects && ShownBy(s, secrets, s.objects[c], text);
      ShownIsLearnable(s, secrets, texts, c, text);
    } else {
      UnsafeStaysSecret(s, secrets, texts, iset{text}, text);
    }
  }

  /** Locks protect the future: after a lock change that left out every member of
      a coalition, they can compute no key of the new epoch in any facet, whatever
      they pool, whatever texts they know and whatever anyone has stored. */
  lemma ALockShutsOut(
    s: State, s': State, close: CloseId, except: set<string>, now: nat, minted: Key, ephs: string -> nat,
    secrets: iset<nat>, texts: iset<Text>, facet: Facet)
    requires Inv(s) && LockChanged(s, s', close, except, now, minted, ephs) && Discreet(s', secrets) && NoKeys(texts)
    requires forall who :: who in s.people && s.people[who].dh in secrets ==>
               !KeepsUp(s, who, except, s.closes[close], now)
    requires facet != Presence
    ensures var r' := s'.closes[close];
            |r'.chain| == r'.epoch
            && !Computable(Knowledge(s', secrets, texts), TrueFacetKey(r', facet, r'.epoch).value)
  {
    LockChangeKeeps(s, s', close, except, now, minted, ephs);
    LockChangeIsLater(s, s', close, except, now, minted, ephs);
    KeysDisclosedIff(s', secrets, texts, close, facet, s'.closes[close].epoch);
  }
}
