/** Slice names: the file a slice lives in, the names recovered from a
    directory listing, and the capitalised form used by the templates.

    A slice `n` is the file `n + "Slice.ts"`. The index is rebuilt by
    applying the regular expression /(.*)Slice.ts/ to every entry of the
    slice directory and keeping the captured groups. The expression is not
    anchored and its '.' is not escaped, so it matches more than the file
    names the CLI writes; `Capture` follows JavaScript's matching order
    (leftmost start, greedy group that backtracks, '.' not matching line
    terminators) over a string of characters. JavaScript runs the expression
    over UTF-16 code units, which differs for characters outside the Basic
    Multilingual Plane. */
module SliceNames {
  import opened Results

  /** The characters JavaScript's '.' does not match. */
  predicate LineTerminator(c: char)
  {
    c == '\n' || c == '\r' || c == '\U{2028}' || c == '\U{2029}'
  }

  predicate NoTerminator(s: string)
  {
    forall i :: 0 <= i < |s| ==> !LineTerminator(s[i])
  }

  /** The rest of the expression, "Slice" . "ts", matches at index `j`. */
  predicate SliceAt(s: string, j: int)
  {
    0 <= j && j + 8 <= |s| && s[j..j + 5] == "Slice" && !LineTerminator(s[j + 5])
    && s[j + 6..j + 8] == "ts"
  }

  /** How far `.*` can reach from `i`: up to the next line terminator. */
  function RunEnd(s: string, i: nat): (k: nat)
    requires i <= |s|
    ensures i <= k <= |s|
    ensures k < |s| ==> LineTerminator(s[k])
    ensures forall m :: i <= m < k ==> !LineTerminator(s[m])
    decreases |s| - i
  {
    if i == |s| || LineTerminator(s[i]) then i else RunEnd(s, i + 1)
  }

  /** The greedy group `(.*)` started at `i`: it first takes everything up
      to `k` and gives back one character at a time until the rest of the
      expression matches. The result is where the group ends. */
  function Backtrack(s: string, i: nat, k: nat): (j: Option<nat>)
    requires i <= k <= |s|
    ensures j.Some? ==> i <= j.value <= k && SliceAt(s, j.value)
                        && forall m :: j.value < m <= k ==> !SliceAt(s, m)
    ensures j.None? ==> forall m :: i <= m <= k ==> !SliceAt(s, m)
    decreases k
  {
    if SliceAt(s, k) then Some(k)
    else if k == i then None
    else Backtrack(s, i, k - 1)
  }

  /** `exec` tries start positions from `i` on; the first that matches wins. */
  function ExecFrom(s: string, i: nat): Option<string>
    requires i <= |s|
    decreases |s| - i
  {
    match Backtrack(s, i, RunEnd(s, i))
    case Some(j) => Some(s[i..j])
    case None => if i == |s| then None else ExecFrom(s, i + 1)
  }

  /** `/(.*)Slice.ts/.exec(entry)?.at(1)`: the captured group, or None
      (undefined) when the expression does not match. */
  function Capture(entry: string): Option<string>
  {
    ExecFrom(entry, 0)
  }

  /** The file name a slice is written to. */
  function SliceFile(name: string): string
  {
    name + "Slice.ts"
  }

  /** The names the index is rendered with: the captures of the entries, in
      listing order, with the entries that do not match dropped. */
  function Slices(entries: seq<string>): (names: seq<string>)
    ensures |names| <= |entries|
  {
    if entries == [] then []
    else
      var last := entries[|entries| - 1];
      Slices(entries[..|entries| - 1]) + (if Capture(last).Some? then [Capture(last).value] else [])
  }

  function SliceFiles(names: seq<string>): (files: seq<string>)
    ensures |files| == |names|
    ensures forall i :: 0 <= i < |names| ==> files[i] == SliceFile(names[i])
  {
    if names == [] then [] else SliceFiles(names[..|names| - 1]) + [SliceFile(names[|names| - 1])]
  }

  // ---- the matcher ----

  /** From `i` on, the expression matches exactly when "Slice.ts" occurs at
      or after `i`, line terminators or not. */
  lemma {:induction false} ExecFromMatches(s: string, i: nat)
    requires i <= |s|
    ensures ExecFrom(s, i).Some? <==> exists j :: i <= j && SliceAt(s, j)
    decreases |s| - i
  {
    var k := RunEnd(s, i);
    if Backtrack(s, i, k).None? && i < |s| {
      ExecFromMatches(s, i + 1);
      if j :| i <= j && SliceAt(s, j) {
        assert i + 1 <= j;
      }
    }
  }

  /** The expression matches an entry exactly when "Slice", one character
      other than a line terminator, and "ts" occur in it. */
  lemma CaptureMatches(entry: string)
    ensures Capture(entry).Some? <==> exists j :: SliceAt(entry, j)
  {
    ExecFromMatches(entry, 0);
  }

  /** For an entry without line terminators the group is the whole prefix
      before the LAST occurrence of "Slice", any character, "ts". */
  lemma CaptureLast(entry: string, x: string)
    requires NoTerminator(entry)
    requires Capture(entry) == Some(x)
    ensures SliceAt(entry, |x|) && x == entry[..|x|]
    ensures forall m :: |x| < m ==> !SliceAt(entry, m)
  {
    assert RunEnd(entry, 0) == |entry|;
    var j := Backtrack(entry, 0, |entry|);
    if j.None? {
      ExecFromMatches(entry, 1);
      assert false;
    }
  }

  /** Slice round-trip: the capture from a slice's own file name is its name. */
  lemma RoundTrip(name: string)
    requires NoTerminator(name)
    ensures Capture(SliceFile(name)) == Some(name)
  {
    var s := SliceFile(name);
    assert SliceAt(s, |name|);
    CaptureMatches(s);
    var x := Capture(s).value;
    assert NoTerminator(s) by {
      forall i | 0 <= i < |s| ensures !LineTerminator(s[i]) {
        if i >= |name| { assert s[i] == "Slice.ts"[i - |name|]; }
      }
    }
    CaptureLast(s, x);
    assert x == s[..|name|];
  }

  /** The index file itself and entries without "Slice.ts" yield nothing. */
  lemma IndexFileIgnored(s: string)
    requires s == "index.ts"
    ensures Capture(s) == None
  {
    CaptureMatches(s);
  }

  /** Where the greedy group ends when the last occurrence up to `k` is
      at `j`. */
  lemma BacktrackLast(s: string, i: nat, k: nat, j: nat)
    requires i <= j <= k <= |s| && SliceAt(s, j)
    requires forall m :: j < m <= k ==> !SliceAt(s, m)
    ensures Backtrack(s, i, k) == Some(j)
  {
  }

  /** The capture of an entry without line terminators whose last
      occurrence is at `n`. */
  lemma CaptureAt(s: string, n: nat)
    requires NoTerminator(s) && SliceAt(s, n)
    requires forall m :: n < m ==> !SliceAt(s, m)
    ensures Capture(s) == Some(s[..n])
  {
    CaptureMatches(s);
    CaptureLast(s, Capture(s).value);
  }

  /** As written the expression is not anchored: a file that merely
      contains "Slice.ts" yields a name too. */
  lemma LooseSuffix(s: string)
    requires s == "fooSlice.tsx"
    ensures Capture(s) == Some("foo")
  {
    assert s[4..9][0] != "Slice"[0];
    CaptureAt(s, 3);
    assert s[..3] == "foo";
  }

  /** The '.' is not escaped: any character may stand between "Slice" and
      "ts". */
  lemma UnescapedDot(s: string)
    requires s == "fooSliceXts"
    ensures Capture(s) == Some("foo")
  {
    CaptureAt(s, 3);
    assert s[..3] == "foo";
  }

  /** The bare file "Slice.ts" yields the empty name, which is kept.
      `RoundTrip` for the empty name, kept as a worked example, as is
      `Greedy` below. */
  lemma EmptyName(s: string)
    requires s == "Slice.ts"
    ensures Capture(s) == Some("")
  {
    assert s == SliceFile("");
    RoundTrip("");
  }

  /** The group is greedy: the LAST occurrence ends it. `RoundTrip` for a
      name that itself contains "Slice.ts", kept as the worked example of
      greediness. */
  lemma Greedy(s: string)
    requires s == "aSlice.tsSlice.ts"
    ensures Capture(s) == Some("aSlice.ts")
  {
    assert s == SliceFile("aSlice.ts");
    RoundTrip("aSlice.ts");
  }

  /** With a line terminator, the match starts on the first line that has
      an occurrence. */
  lemma MultiLine(s: string)
    requires s == "a\nbSlice.ts"
    ensures Capture(s) == Some("b")
  {
    assert RunEnd(s, 0) == 1;
    assert Backtrack(s, 0, 1) == None;
    assert RunEnd(s, 1) == 1;
    assert Backtrack(s, 1, 1) == None;
    var k := RunEnd(s, 2);
    assert k == |s|;
    BacktrackLast(s, 2, k, 3);
    assert ExecFrom(s, 2) == Some(s[2..3]);
    assert ExecFrom(s, 1) == ExecFrom(s, 2);
    assert ExecFrom(s, 0) == ExecFrom(s, 1);
    assert s[2..3] == "b";
  }

  // ---- aggregation ----

  lemma {:induction false} SlicesAppend(a: seq<string>, b: seq<string>)
    ensures Slices(a + b) == Slices(a) + Slices(b)
    decreases |b|
  {
    if b == [] {
      assert a + b == a;
    } else {
      var b' := b[..|b| - 1];
      SlicesAppend(a, b');
      assert (a + b)[..|a + b| - 1] == a + b';
      assert (a + b)[|a + b| - 1] == b[|b| - 1];
    }
  }

  /** Index membership: a name is exported exactly when some entry of the
      listing captures it. */
  lemma {:induction false} SlicesMembership(entries: seq<string>, x: string)
    ensures x in Slices(entries) <==> exists e :: e in entries && Capture(e) == Some(x)
  {
    if entries != [] {
      var front := entries[..|entries| - 1];
      var last := entries[|entries| - 1];
      SlicesMembership(front, x);
      assert entries == front + [last];
      if x in Slices(entries) && x !in Slices(front) {
        assert Capture(last) == Some(x);
      }
      if e :| e in entries && Capture(e) == Some(x) {
        if e != last { assert e in front; }
      }
    }
  }

  /** The names of slices written by the CLI come back in listing order. */
  lemma {:induction false} SlicesOfSliceFiles(names: seq<string>)
    requires forall i :: 0 <= i < |names| ==> NoTerminator(names[i])
    ensures Slices(SliceFiles(names)) == names
  {
    if names != [] {
      var front := names[..|names| - 1];
      SlicesOfSliceFiles(front);
      RoundTrip(names[|names| - 1]);
      var fs := SliceFiles(names);
      assert fs[..|fs| - 1] == SliceFiles(front);
    }
  }

  /** When every entry is a slice file of a name without line terminators
      or does not match at all, the index names exactly the slices present. */
  lemma CanonicalListing(entries: seq<string>, x: string)
    requires NoTerminator(x)
    requires forall e :: e in entries ==>
               Capture(e).None? || (NoTerminator(Capture(e).value) && e == SliceFile(Capture(e).value))
    ensures x in Slices(entries) <==> SliceFile(x) in entries
  {
    SlicesMembership(entries, x);
    if SliceFile(x) in entries {
      RoundTrip(x);
    }
  }

  /** Two files that differ after "Slice.ts" export the same name twice. */
  lemma DuplicateExport(a: string, b: string)
    requires a == "aSlice.ts" && b == "aSlice.tsx"
    ensures Slices([a, b]) == ["a", "a"]
  {
    assert a == SliceFile("a");
    RoundTrip("a");
    assert b[2..7][0] != "Slice"[0];
    CaptureAt(b, 1);
    assert b[..1] == "a";
    var es := [a, b];
    assert es[..1] == [a];
    assert es[..1][..0] == [];
  }

  // ---- capitalisation ----

  predicate IsLower(c: char)
  {
    'a' <= c <= 'z'
  }

  /** `toUpperCase` on one character, for the ASCII letters. */
  function Upper(c: char): (u: char)
    ensures IsLower(c) ==> 'A' <= u <= 'Z' && u as int - 'A' as int == c as int - 'a' as int
    ensures !IsLower(c) ==> u == c
    ensures !IsLower(u)
  {
    if IsLower(c) then (c as int - 32) as char else c
  }

  /** `capitalize(name, true)`: the first character upper-cased, the rest of
      the name preserved. */
  function Capitalize(name: string): (cap: string)
    ensures |cap| == |name|
    ensures name != [] ==> cap[0] == Upper(name[0]) && cap[1..] == name[1..]
    ensures name == [] || !IsLower(name[0]) ==> cap == name
  {
    if name == [] then [] else [Upper(name[0])] + name[1..]
  }

  /** Capitalising twice is capitalising once. */
  lemma CapitalizeIdempotent(name: string)
    ensures Capitalize(Capitalize(name)) == Capitalize(name)
  {
  }
}
