/** The bounded ancestry search behind the forward-only guard
    (crates/close/src/repo.rs `is_descendant`). */
module Ancestry {
  import opened Terms

  /** The parents of a commit, if the searcher can read it. */
  type Reader = CipherId -> Option<seq<CipherId>>

  const MAX_STEPS: nat := 10_000

  function ParentsOf(read: Reader, id: CipherId): seq<CipherId> {
    if read(id).Some? then read(id).value else []
  }

  function Search(read: Reader, sought: CipherId, frontier: seq<CipherId>, steps: nat): bool
    requires steps <= MAX_STEPS
    decreases MAX_STEPS - steps
  {
    if frontier == [] then false
    else
      var rest, id := frontier[..|frontier| - 1], frontier[|frontier| - 1];
      if id == sought then true
      else if steps + 1 > MAX_STEPS then false
      else Search(read, sought, rest + ParentsOf(read, id), steps + 1)
  }

  /** Does `newer` descend from `ancestor`, as far as this searcher can tell? */
  function IsDescendantOf(read: Reader, ancestor: CipherId, newer: CipherId): bool {
    Search(read, ancestor, [newer], 0)
  }

  // ---- soundness on any graph -----------------------------------------------------

  /** Each commit of the path is a parent of the one before it. */
  ghost predicate ParentPath(read: Reader, path: seq<CipherId>) {
    forall i :: 0 <= i < |path| - 1 ==> path[i + 1] in ParentsOf(read, path[i])
  }

  ghost predicate PathFromTo(read: Reader, newer: CipherId, ancestor: CipherId, path: seq<CipherId>) {
    |path| > 0 && path[0] == newer && path[|path| - 1] == ancestor && ParentPath(read, path)
  }

  /** Reachable through parents in zero or more steps. */
  ghost predicate Ancestor(read: Reader, ancestor: CipherId, newer: CipherId) {
    exists path :: PathFromTo(read, newer, ancestor, path)
  }

  lemma AncestorIsReflexive(read: Reader, id: CipherId)
    ensures Ancestor(read, id, id)
  {
    assert PathFromTo(read, id, id, [id]);
  }

  lemma AncestorIsTransitive(read: Reader, a: CipherId, b: CipherId, c: CipherId)
    requires Ancestor(read, a, b) && Ancestor(read, b, c)
    ensures Ancestor(read, a, c)
  {
    var p :| PathFromTo(read, b, a, p);
    var q :| PathFromTo(read, c, b, q);
    var joined := q + p[1..];
    forall i | 0 <= i < |joined| - 1 ensures joined[i + 1] in ParentsOf(read, joined[i]) {
      if i >= |q| - 1 {
        var k := i - (|q| - 1);
        assert p[k + 1] in ParentsOf(read, p[k]);
      }
    }
    assert PathFromTo(read, c, a, joined);
  }

  /** A reader that sees at least as much has at least the same ancestors. */
  lemma AncestorWidens(read: Reader, read': Reader, ancestor: CipherId, newer: CipherId)
    requires forall c, p :: p in ParentsOf(read, c) ==> p in ParentsOf(read', c)
    requires Ancestor(read, ancestor, newer)
    ensures Ancestor(read', ancestor, newer)
  {
    var path :| PathFromTo(read, newer, ancestor, path);
    assert PathFromTo(read', newer, ancestor, path);
  }

  lemma ParentIsAncestor(read: Reader, parent: CipherId, child: CipherId)
    requires parent in ParentsOf(read, child)
    ensures Ancestor(read, parent, child)
  {
    assert PathFromTo(read, child, parent, [child, parent]);
  }

  lemma {:induction false} SearchIsSound(read: Reader, sought: CipherId, frontier: seq<CipherId>, steps: nat)
    requires steps <= MAX_STEPS && Search(read, sought, frontier, steps)
    ensures exists id :: id in frontier && Ancestor(read, sought, id)
    decreases MAX_STEPS - steps
  {
    var rest, id := frontier[..|frontier| - 1], frontier[|frontier| - 1];
    if id == sought {
      AncestorIsReflexive(read, id);
    } else {
      SearchIsSound(read, sought, rest + ParentsOf(read, id), steps + 1);
      var next :| next in rest + ParentsOf(read, id) && Ancestor(read, sought, next);
      if next !in rest {
        ParentIsAncestor(read, next, id);
        AncestorIsTransitive(read, sought, next, id);
      }
    }
  }

  /** On any commit graph a positive answer names a real ancestor. */
  lemma DescendantIsSound(read: Reader, ancestor: CipherId, newer: CipherId)
    requires IsDescendantOf(read, ancestor, newer)
    ensures Ancestor(read, ancestor, newer)
  {
    SearchIsSound(read, ancestor, [newer], 0);
  }

  // ---- exactness on linear histories -------------------------------------------------

  /** The commit `distance` first parents back. */
  function Back(read: Reader, id: CipherId, distance: nat): Option<CipherId>
    decreases distance
  {
    if distance == 0 then Some(id)
    else if ParentsOf(read, id) == [] then None
    else Back(read, ParentsOf(read, id)[0], distance - 1)
  }

  /** From `id` backwards every commit has at most one parent. */
  ghost predicate LinearFrom(read: Reader, id: CipherId) {
    forall distance: nat :: SingleAt(read, id, distance)
  }

  ghost predicate SingleAt(read: Reader, id: CipherId, distance: nat) {
    var at := Back(read, id, distance);
    at.Some? ==> |ParentsOf(read, at.value)| <= 1
  }

  lemma LinearStep(read: Reader, id: CipherId)
    requires LinearFrom(read, id) && ParentsOf(read, id) != []
    ensures ParentsOf(read, id) == [ParentsOf(read, id)[0]] && LinearFrom(read, ParentsOf(read, id)[0])
  {
    assert SingleAt(read, id, 0);
    var parent := ParentsOf(read, id)[0];
    forall distance: nat ensures SingleAt(read, parent, distance) {
      assert SingleAt(read, id, distance + 1);
    }
  }

  ghost predicate WithinReach(read: Reader, sought: CipherId, id: CipherId, limit: nat) {
    exists distance: nat :: distance <= limit && Back(read, id, distance) == Some(sought)
  }

  lemma WithinReachStep(read: Reader, sought: CipherId, id: CipherId, limit: nat)
    requires id != sought && limit > 0 && ParentsOf(read, id) != []
    ensures WithinReach(read, sought, id, limit) <==> WithinReach(read, sought, ParentsOf(read, id)[0], limit - 1)
  {
    var parent := ParentsOf(read, id)[0];
    if distance: nat :| distance <= limit - 1 && Back(read, parent, distance) == Some(sought) {
      assert Back(read, id, distance + 1) == Some(sought);
    }
    if distance: nat :| distance <= limit && Back(read, id, distance) == Some(sought) {
      assert distance > 0 && Back(read, parent, distance - 1) == Some(sought);
    }
  }

  lemma {:induction false} LinearSearchIff(read: Reader, sought: CipherId, id: CipherId, steps: nat)
    requires steps <= MAX_STEPS && LinearFrom(read, id)
    ensures Search(read, sought, [id], steps) <==> WithinReach(read, sought, id, MAX_STEPS - steps)
    decreases MAX_STEPS - steps
  {
    assert [id][..0] + ParentsOf(read, id) == ParentsOf(read, id);
    if id == sought {
      assert Back(read, id, 0) == Some(sought);
    } else if steps < MAX_STEPS && ParentsOf(read, id) != [] {
      LinearStep(read, id);
      LinearSearchIff(read, sought, ParentsOf(read, id)[0], steps + 1);
      WithinReachStep(read, sought, id, MAX_STEPS - steps);
    }
  }

  /** On a linear history the answer is yes exactly for the commits at distance
      at most 10,000. */
  lemma LinearDescendantIff(read: Reader, ancestor: CipherId, newer: CipherId)
    requires LinearFrom(read, newer)
    ensures IsDescendantOf(read, ancestor, newer) <==> WithinReach(read, ancestor, newer, 10_000)
  {
    LinearSearchIff(read, ancestor, newer, 0);
  }
}
