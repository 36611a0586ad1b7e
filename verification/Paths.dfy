/** Paths as typed and as joined (crates/close/src/repo.rs `segments`). */
module Paths {

  /** The white space of Unicode. */
  predicate IsSpace(c: char) {
    || '\U{9}' <= c <= '\U{D}' || c == ' ' || c == '\U{85}' || c == '\U{A0}' || c == '\U{1680}'
    || '\U{2000}' <= c <= '\U{200A}' || c == '\U{2028}' || c == '\U{2029}' || c == '\U{202F}'
    || c == '\U{205F}' || c == '\U{3000}'
  }

  function TrimStart(s: string): string
    decreases |s|
  {
    if s != "" && IsSpace(s[0]) then TrimStart(s[1..]) else s
  }

  function TrimEnd(s: string): string
    decreases |s|
  {
    if s != "" && IsSpace(s[|s| - 1]) then TrimEnd(s[..|s| - 1]) else s
  }

  function TrimDotSlash(s: string): string
    decreases |s|
  {
    if |s| >= 2 && s[..2] == "./" then TrimDotSlash(s[2..]) else s
  }

  function TrimSlashStart(s: string): string
    decreases |s|
  {
    if s != "" && s[0] == '/' then TrimSlashStart(s[1..]) else s
  }

  function TrimSlashEnd(s: string): string
    decreases |s|
  {
    if s != "" && s[|s| - 1] == '/' then TrimSlashEnd(s[..|s| - 1]) else s
  }

  /** The pieces between slashes; one more piece than slashes. */
  function Split(s: string): (pieces: seq<string>)
    ensures |pieces| > 0 && forall p :: p in pieces ==> '/' !in p
    decreases |s|
  {
    if s == "" then [""]
    else
      var rest := Split(s[1..]);
      if s[0] == '/' then [""] + rest else [[s[0]] + rest[0]] + rest[1..]
  }

  predicate GoodSegment(s: string) {
    s != "" && s != "." && '/' !in s
  }

  /** A path of proper names. */
  predicate Clean(path: seq<string>) {
    forall s :: s in path ==> GoodSegment(s)
  }

  function DropEmpty(pieces: seq<string>): (path: seq<string>)
    ensures (forall p :: p in pieces ==> '/' !in p) ==> Clean(path)
  {
    if pieces == [] then []
    else if pieces[0] == "" || pieces[0] == "." then DropEmpty(pieces[1..])
    else [pieces[0]] + DropEmpty(pieces[1..])
  }

  /** The names a typed path goes through, from the top of the repository. */
  function Segments(path: string): (segments: seq<string>)
    ensures Clean(segments)
  {
    DropEmpty(Split(TrimSlashEnd(TrimSlashStart(TrimDotSlash(TrimEnd(TrimStart(path)))))))
  }

  function Join(path: seq<string>): string {
    if path == [] then "" else if |path| == 1 then path[0] else path[0] + "/" + Join(path[1..])
  }

  lemma JoinIsEmpty(p: seq<string>)
    requires Clean(p)
    ensures Join(p) == "" <==> p == []
  {
    if p != [] {
      assert GoodSegment(p[0]);
    }
  }

  // ---- what the segments of a typed path are ----------------------------------------

  function Trim(s: string): string {
    TrimEnd(TrimStart(s))
  }

  predicate AllSpace(s: string) {
    forall c :: c in s ==> IsSpace(c)
  }

  lemma {:induction false} TrimStartIs(s: string) returns (lead: string)
    ensures s == lead + TrimStart(s) && AllSpace(lead)
    ensures TrimStart(s) != "" ==> !IsSpace(TrimStart(s)[0])
    decreases |s|
  {
    lead := "";
    if s != "" && IsSpace(s[0]) {
      lead := TrimStartIs(s[1..]);
      lead := [s[0]] + lead;
    }
  }

  lemma {:induction false} TrimEndIs(s: string) returns (tail: string)
    ensures s == TrimEnd(s) + tail && AllSpace(tail)
    ensures TrimEnd(s) != "" ==> !IsSpace(TrimEnd(s)[|TrimEnd(s)| - 1]) && TrimEnd(s)[0] == s[0]
    decreases |s|
  {
    tail := "";
    if s != "" && IsSpace(s[|s| - 1]) {
      tail := TrimEndIs(s[..|s| - 1]);
      tail := tail + [s[|s| - 1]];
    }
  }

  /** Trimming takes away all the space at both ends and nothing else. */
  lemma TrimIs(s: string) returns (lead: string, tail: string)
    ensures s == lead + Trim(s) + tail && AllSpace(lead) && AllSpace(tail)
    ensures Trim(s) != "" ==> !IsSpace(Trim(s)[0]) && !IsSpace(Trim(s)[|Trim(s)| - 1])
  {
    lead := TrimStartIs(s);
    tail := TrimEndIs(TrimStart(s));
  }

  predicate SlashFree(pieces: seq<string>) {
    forall p :: p in pieces ==> '/' !in p
  }

  lemma {:induction false} SplitOfPiece(p: string, rest: string)
    requires '/' !in p
    ensures Split(p) == [p]
    ensures Split(p + "/" + rest) == [p] + Split(rest)
  {
    var s := p + "/" + rest;
    if p == "" {
      assert s[1..] == rest;
    } else {
      assert p[0] in p && s[0] == p[0] && s[1..] == p[1..] + "/" + rest;
      SplitOfPiece(p[1..], rest);
      assert [p[0]] + p[1..] == p;
      assert ([p[1..]] + Split(rest))[1..] == Split(rest);
    }
  }

  /** Joining the pieces with slashes gives the path back ... */
  lemma {:induction false} JoinOfSplit(s: string)
    ensures Join(Split(s)) == s
    decreases |s|
  {
    if s != "" {
      JoinOfSplit(s[1..]);
      var rest := Split(s[1..]);
      if s[0] == '/' {
        assert ([""] + rest)[1..] == rest;
      } else {
        assert ([[s[0]] + rest[0]] + rest[1..])[1..] == rest[1..];
      }
    }
  }

  /** ... and no other pieces without slashes do. */
  lemma {:induction false} SplitOfJoin(pieces: seq<string>)
    requires pieces != [] && SlashFree(pieces)
    ensures Split(Join(pieces)) == pieces
  {
    if |pieces| == 1 {
      SplitOfPiece(pieces[0], "");
    } else {
      SplitOfPiece(pieces[0], Join(pieces[1..]));
      SplitOfJoin(pieces[1..]);
    }
  }

  lemma {:induction false} DropEmptyAppends(a: seq<string>, b: seq<string>)
    ensures DropEmpty(a + b) == DropEmpty(a) + DropEmpty(b)
  {
    if a == [] {
      assert a + b == b;
    } else {
      assert (a + b)[1..] == a[1..] + b;
      DropEmptyAppends(a[1..], b);
    }
  }

  lemma {:induction false} CleanStays(path: seq<string>)
    requires Clean(path)
    ensures DropEmpty(path) == path
  {
    if path != [] {
      assert path[0] in path && path == [path[0]] + path[1..];
      CleanStays(path[1..]);
    }
  }

  lemma {:induction false} DotSlashIsNothing(s: string)
    ensures DropEmpty(Split(TrimDotSlash(s))) == DropEmpty(Split(s))
    decreases |s|
  {
    if |s| >= 2 && s[..2] == "./" {
      assert s == "." + "/" + s[2..];
      SplitOfPiece(".", s[2..]);
      assert Split(s)[1..] == Split(s[2..]);
      DotSlashIsNothing(s[2..]);
    }
  }

  lemma {:induction false} LeadingSlashIsNothing(s: string)
    ensures DropEmpty(Split(TrimSlashStart(s))) == DropEmpty(Split(s))
    decreases |s|
  {
    if s != "" && s[0] == '/' {
      assert Split(s)[1..] == Split(s[1..]);
      LeadingSlashIsNothing(s[1..]);
    }
  }

  lemma {:induction false} SplitAtEnd(s: string)
    ensures Split(s + "/") == Split(s) + [""]
    decreases |s|
  {
    if s != "" {
      assert (s + "/")[1..] == s[1..] + "/";
      SplitAtEnd(s[1..]);
    }
  }

  lemma {:induction false} TrailingSlashIsNothing(s: string)
    ensures DropEmpty(Split(TrimSlashEnd(s))) == DropEmpty(Split(s))
    decreases |s|
  {
    if s != "" && s[|s| - 1] == '/' {
      var front := s[..|s| - 1];
      assert s == front + "/";
      SplitAtEnd(front);
      DropEmptyAppends(Split(front), [""]);
      TrailingSlashIsNothing(front);
    }
  }

  /** The segments of a typed path are exactly the pieces between its slashes that
      are neither empty nor a dot, in order; taking off leading `./` and slashes at
      either end changes nothing more. */
  lemma SegmentsAre(path: string)
    ensures Segments(path) == DropEmpty(Split(Trim(path)))
  {
    var s := Trim(path);
    DotSlashIsNothing(s);
    LeadingSlashIsNothing(TrimDotSlash(s));
    TrailingSlashIsNothing(TrimSlashStart(TrimDotSlash(s)));
  }

  /** Typing a clean path joined with slashes gives it back, unless space at an end
      is lost to trimming. */
  lemma SegmentsOfJoin(path: seq<string>)
    requires Clean(path) && Trim(Join(path)) == Join(path)
    ensures Segments(Join(path)) == path
  {
    SegmentsAre(Join(path));
    if path != [] {
      SplitOfJoin(path);
    }
    CleanStays(path);
  }

  /** Every segment preceded by a slash: how a cell's identity spells its path. */
  function Spelled(path: seq<string>): string {
    if path == [] then "" else "/" + path[0] + Spelled(path[1..])
  }

  lemma SpelledSlash(path: seq<string>)
    ensures path != [] ==> Spelled(path) != "" && Spelled(path)[0] == '/'
  {
  }

  lemma NoShorter(a: string, s: string, b: string, t: string)
    requires a + s == b + t && '/' !in b
    requires s != "" ==> s[0] == '/'
    ensures |a| >= |b|
  {
    assert s != "" ==> (a + s)[|a|] == s[0];
    assert forall i :: 0 <= i < |b| ==> (b + t)[i] == b[i] && b[i] in b;
  }

  /** Two clean paths that are spelled alike are the same path. */
  lemma {:induction false} SpellingIsInjective(p: seq<string>, q: seq<string>)
    requires Clean(p) && Clean(q) && Spelled(p) == Spelled(q)
    ensures p == q
  {
    SpelledSlash(p);
    SpelledSlash(q);
    if p != [] {
      var a, b := p[0], q[0];
      var s, t := Spelled(p[1..]), Spelled(q[1..]);
      SpelledSlash(p[1..]);
      SpelledSlash(q[1..]);
      assert Spelled(p)[1..] == a + s && Spelled(q)[1..] == b + t;
      assert a + s == b + t;
      assert p[0] in p && q[0] in q;
      NoShorter(a, s, b, t);
      NoShorter(b, t, a, s);
      assert a == (a + s)[..|a|] == (b + t)[..|b|] == b;
      assert s == (a + s)[|a|..] == (b + t)[|b|..] == t;
      assert Clean(p[1..]) && Clean(q[1..]);
      SpellingIsInjective(p[1..], q[1..]);
    }
  }
}
