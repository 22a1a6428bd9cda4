/** Paths as Node's `path.join` produces them.

    A path is the sequence of its segments, relative to the working
    directory (the empty path). `path.join(a, b)` glues its arguments with
    '/' and normalises the result: empty and "." segments vanish and ".."
    cancels the segment before it. `Join` models the call with a base that
    is already normal and one further argument that may contain '/'. */
module Paths {

  type Path = seq<string>

  function Parent(p: Path): Path
    requires p != []
  {
    p[..|p| - 1]
  }

  function Leaf(p: Path): string
    requires p != []
  {
    p[|p| - 1]
  }

  /** A segment that normalisation keeps unchanged. */
  predicate Plain(seg: string)
  {
    seg != "" && seg != "." && seg != ".."
  }

  predicate AllPlain(p: Path)
  {
    forall i :: 0 <= i < |p| ==> Plain(p[i])
  }

  predicate NoSlash(s: string)
  {
    forall i :: 0 <= i < |s| ==> s[i] != '/'
  }

  /** The pieces of `s` between its '/' characters, in order. */
  function Split(s: string): (r: seq<string>)
    ensures |r| >= 1
    ensures forall i :: 0 <= i < |r| ==> NoSlash(r[i])
  {
    if s == [] then [""]
    else
      var init := Split(s[..|s| - 1]);
      var c := s[|s| - 1];
      if c == '/' then init + [""]
      else init[..|init| - 1] + [init[|init| - 1] + [c]]
  }

  /** `segs` glued with '/' between consecutive segments. */
  function Glue(segs: seq<string>): string
  {
    if segs == [] then ""
    else if |segs| == 1 then segs[0]
    else Glue(segs[..|segs| - 1]) + "/" + segs[|segs| - 1]
  }

  /** Normalisation: drops "" and "." segments; ".." removes the segment
      before it, or is kept when there is none (or only ".." before it). */
  function Normalize(segs: seq<string>): (r: Path)
    ensures forall i :: 0 <= i < |r| ==> r[i] != "" && r[i] != "."
  {
    if segs == [] then []
    else
      var init := Normalize(segs[..|segs| - 1]);
      var s := segs[|segs| - 1];
      if s == "" || s == "." then init
      else if s == ".." then
        (if init != [] && Leaf(init) != ".." then Parent(init) else init + [".."])
      else init + [s]
  }

  /** `path.join(base, s)` for a normal `base`. */
  function Join(base: Path, s: string): Path
  {
    Normalize(base + Split(s))
  }

  /** The string `path.join` returns for `p`. */
  function Text(p: Path): string
  {
    if p == [] then "." else Glue(p)
  }

  /** Gluing the pieces of a split gives back the string. */
  lemma {:induction false} GlueSplit(s: string)
    ensures Glue(Split(s)) == s
  {
    if s != [] {
      var t, c := s[..|s| - 1], s[|s| - 1];
      assert s == t + [c];
      GlueSplit(t);
      GlueSplitSnoc(t, c);
    }
  }

  /** One more character keeps the round trip. */
  lemma GlueSplitSnoc(t: string, c: char)
    requires Glue(Split(t)) == t
    ensures Glue(Split(t + [c])) == t + [c]
  {
    assert (t + [c])[..|t|] == t;
    if c == '/' {
      assert Split(t + [c]) == Split(t) + [""];
      GlueSnoc(Split(t), "");
    } else {
      var init := Split(t);
      var front, last := init[..|init| - 1], init[|init| - 1];
      assert init == front + [last];
      assert Split(t + [c]) == front + [last + [c]];
      GlueExtend(front, last, c);
    }
  }

  /** Extending the last segment extends the glued string. */
  lemma GlueExtend(front: seq<string>, last: string, c: char)
    ensures Glue(front + [last + [c]]) == Glue(front + [last]) + [c]
  {
    GlueSnoc(front, last);
    GlueSnoc(front, last + [c]);
    if front != [] {
      var g := Glue(front) + "/";
      assert g + (last + [c]) == (g + last) + [c];
    }
  }

  /** Gluing one more segment on. */
  lemma GlueSnoc(front: seq<string>, x: string)
    ensures Glue(front + [x]) == if front == [] then x else Glue(front) + "/" + x
  {
    assert (front + [x])[..|front|] == front;
  }

  /** A string without '/' is a single piece. */
  lemma {:induction false} SplitNoSlash(s: string)
    requires NoSlash(s)
    ensures Split(s) == [s]
  {
    if s != [] {
      SplitNoSlash(s[..|s| - 1]);
      assert s[..|s| - 1] + [s[|s| - 1]] == s;
    }
  }

  /** Appending text without '/' only extends the last piece. */
  lemma {:induction false} SplitAppend(s: string, t: string)
    requires NoSlash(t)
    ensures var r := Split(s);
            Split(s + t) == r[..|r| - 1] + [r[|r| - 1] + t]
    decreases |t|
  {
    var r := Split(s);
    if t == [] {
      assert s + t == s;
      assert r[|r| - 1] + t == r[|r| - 1];
      assert r == r[..|r| - 1] + [r[|r| - 1]];
    } else {
      var t', c := t[..|t| - 1], t[|t| - 1];
      assert t == t' + [c];
      assert s + t == (s + t') + [c];
      SplitAppend(s, t');
      SplitSnoc(s + t', c);
      var last := r[|r| - 1];
      assert (last + t') + [c] == last + t;
    }
  }

  /** One more character other than '/' extends the last piece. */
  lemma SplitSnoc(u: string, c: char)
    requires c != '/'
    ensures var init := Split(u);
            Split(u + [c]) == init[..|init| - 1] + [init[|init| - 1] + [c]]
  {
    assert (u + [c])[..|u|] == u;
  }

  /** Normalisation leaves a path of plain segments unchanged. */
  lemma {:induction false} NormalizePlain(p: Path)
    requires AllPlain(p)
    ensures Normalize(p) == p
  {
    if p != [] {
      NormalizePlain(p[..|p| - 1]);
    }
  }

  /** Joining a plain name without '/' appends one segment. */
  lemma JoinName(base: Path, name: string)
    requires AllPlain(base) && Plain(name) && NoSlash(name)
    ensures Join(base, name) == base + [name]
  {
    SplitNoSlash(name);
    NormalizePlain(base + [name]);
  }

  /** When the text after the last '/' of `s` is a plain segment, it is the
      leaf of the joined path. */
  lemma JoinLeaf(base: Path, s: string)
    requires Plain(Split(s)[|Split(s)| - 1])
    ensures Join(base, s) != [] && Leaf(Join(base, s)) == Split(s)[|Split(s)| - 1]
  {
    var segs := base + Split(s);
    assert segs[|segs| - 1] == Split(s)[|Split(s)| - 1];
  }

  /** Joining a plain file name without '/' makes it the leaf. */
  lemma LeafOfJoin(base: Path, file: string)
    requires Plain(file) && NoSlash(file)
    ensures Join(base, file) != [] && Leaf(Join(base, file)) == file
  {
    SplitNoSlash(file);
    JoinLeaf(base, file);
  }
}
