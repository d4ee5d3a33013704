/** Text as the chunkers and the cleanup see it: lines, surrounding whitespace, and the
    characters that carry content.

    `Solid` drops all whitespace; conservation of content is equality under `Solid`, since
    chunks are stripped and joined at newlines. `FlatMap` is the common shape of the
    programs that emit any number of pieces for each element, and its laws carry the
    conservation proofs of all chunkers. */
module Text {

  /** The characters Python's str.strip removes. */
  predicate IsSpace(c: char)
  {
    '\t' <= c <= '\r' || '\U{1C}' <= c <= ' ' || c == '\U{85}' || c == '\U{A0}' || c == '\U{1680}'
    || '\U{2000}' <= c <= '\U{200A}' || c == '\U{2028}' || c == '\U{2029}' || c == '\U{202F}'
    || c == '\U{205F}' || c == '\U{3000}'
  }

  function LStrip(s: string): (r: string)
    ensures |r| <= |s|
  {
    if s != "" && IsSpace(s[0]) then LStrip(s[1..]) else s
  }

  function RStrip(s: string): (r: string)
    ensures r <= s
  {
    if s != "" && IsSpace(s[|s| - 1]) then RStrip(s[..|s| - 1]) else s
  }

  function Strip(s: string): (r: string)
    ensures |r| <= |s|
  {
    RStrip(LStrip(s))
  }

  /** The non-whitespace characters, in order. */
  function Solid(s: string): string
  {
    if s == "" then ""
    else (if IsSpace(s[0]) then [] else [s[0]]) + Solid(s[1..])
  }

  /** `f` of every element, one after the other. */
  function FlatMap<A, B>(f: A -> seq<B>, s: seq<A>): seq<B>
  {
    if s == [] then [] else f(s[0]) + FlatMap(f, s[1..])
  }

  /** The content of several texts, in order. */
  function SolidAll(parts: seq<string>): string
  {
    FlatMap(Solid, parts)
  }

  // ---------- lines ----------

  function Split(s: string): (r: seq<string>)
    ensures r != []
  {
    if s == "" then [""]
    else
      var rest := Split(s[1..]);
      if s[0] == '\n' then [""] + rest else [[s[0]] + rest[0]] + rest[1..]
  }

  function Join(lines: seq<string>): string
  {
    if lines == [] then ""
    else if |lines| == 1 then lines[0]
    else lines[0] + "\n" + Join(lines[1..])
  }

  // ---------- facts ----------

  lemma {:induction false} SolidAppend(a: string, b: string)
    ensures Solid(a + b) == Solid(a) + Solid(b)
    decreases |a|
  {
    if a == "" {
      assert a + b == b;
    } else {
      assert (a + b)[1..] == a[1..] + b;
      SolidAppend(a[1..], b);
      Assoc(if IsSpace(a[0]) then [] else [a[0]], Solid(a[1..]), Solid(b));
    }
  }

  lemma Assoc<T>(a: seq<T>, b: seq<T>, c: seq<T>)
    ensures (a + b) + c == a + (b + c)
  {
  }

  lemma FlatMapOne<A, B>(f: A -> seq<B>, x: A)
    ensures FlatMap(f, [x]) == f(x)
  {
    assert [x][1..] == [];
    assert FlatMap(f, [x][1..]) == [];
  }

  lemma {:induction false} FlatMapAppend<A, B>(f: A -> seq<B>, a: seq<A>, b: seq<A>)
    ensures FlatMap(f, a + b) == FlatMap(f, a) + FlatMap(f, b)
    decreases |a|
  {
    if a == [] {
      assert a + b == b;
    } else {
      assert (a + b)[1..] == a[1..] + b;
      FlatMapAppend(f, a[1..], b);
      Assoc(f(a[0]), FlatMap(f, a[1..]), FlatMap(f, b));
    }
  }

  lemma FlatMapSnoc<A, B>(f: A -> seq<B>, a: seq<A>, x: A)
    ensures FlatMap(f, a + [x]) == FlatMap(f, a) + f(x)
  {
    FlatMapAppend(f, a, [x]);
    FlatMapOne(f, x);
  }

  lemma FlatMapNext<A, B>(f: A -> seq<B>, s: seq<A>, i: int)
    requires 0 <= i < |s|
    ensures FlatMap(f, s[..i + 1]) == FlatMap(f, s[..i]) + f(s[i])
  {
    FlatMapSnoc(f, s[..i], s[i]);
    assert s[..i + 1] == s[..i] + [s[i]];
  }

  lemma FlatMapFrom<A, B>(f: A -> seq<B>, s: seq<A>, k: int)
    requires 0 <= k < |s|
    ensures FlatMap(f, s[k..]) == f(s[k]) + FlatMap(f, s[k + 1..])
  {
    assert s[k..][1..] == s[k + 1..];
  }

  lemma FlatMapAt<A, B>(f: A -> seq<B>, s: seq<A>, k: int)
    requires 0 <= k < |s|
    ensures FlatMap(f, s) == FlatMap(f, s[..k]) + (f(s[k]) + FlatMap(f, s[k + 1..]))
  {
    FlatMapFrom(f, s, k);
    FlatMapParts(f, s, s[..k], s[k..]);
  }

  lemma FlatMapParts<A, B>(f: A -> seq<B>, s: seq<A>, a: seq<A>, b: seq<A>)
    requires s == a + b
    ensures FlatMap(f, s) == FlatMap(f, a) + FlatMap(f, b)
  {
    FlatMapAppend(f, a, b);
  }

  lemma {:induction false} FlatMapPaired<A, B, C>(f: A -> seq<C>, g: B -> seq<C>, s: seq<A>, t: seq<B>)
    requires |s| == |t| && forall k :: 0 <= k < |s| ==> f(s[k]) == g(t[k])
    ensures FlatMap(f, s) == FlatMap(g, t)
    decreases |s|
  {
    if s != [] {
      FlatMapPaired(f, g, s[1..], t[1..]);
    }
  }

  /** Mapping twice is mapping once, when it is so for every element. */
  lemma {:induction false} FlatMapFuse<A, B, C>(f: A -> seq<B>, g: B -> seq<C>, h: A -> seq<C>, s: seq<A>)
    requires forall k :: 0 <= k < |s| ==> FlatMap(g, f(s[k])) == h(s[k])
    ensures FlatMap(g, FlatMap(f, s)) == FlatMap(h, s)
    decreases |s|
  {
    if s != [] {
      FlatMapAppend(g, f(s[0]), FlatMap(f, s[1..]));
      FlatMapFuse(f, g, h, s[1..]);
    }
  }

  lemma {:induction false} SolidLStrip(s: string)
    ensures Solid(LStrip(s)) == Solid(s)
    decreases |s|
  {
    if s != "" && IsSpace(s[0]) {
      SolidLStrip(s[1..]);
    }
  }

  lemma SolidSnoc(s: string, c: char)
    ensures Solid(s + [c]) == Solid(s) + if IsSpace(c) then [] else [c]
  {
    SolidAppend(s, [c]);
    assert [c][1..] == "";
    assert Solid([c]) == if IsSpace(c) then [] else [c];
  }

  lemma {:induction false} SolidRStrip(s: string)
    ensures Solid(RStrip(s)) == Solid(s)
    decreases |s|
  {
    if s != "" && IsSpace(s[|s| - 1]) {
      var init, last := s[..|s| - 1], s[|s| - 1];
      assert s == init + [last];
      SolidSnoc(init, last);
      SolidRStrip(init);
    }
  }

  /** Stripping loses no content. */
  lemma SolidStrip(s: string)
    ensures Solid(Strip(s)) == Solid(s)
  {
    SolidLStrip(s);
    SolidRStrip(LStrip(s));
  }

  lemma SolidNewline(s: string)
    ensures Solid(s + "\n") == Solid(s)
  {
    SolidSnoc(s, '\n');
  }

  lemma {:induction false} SolidJoin(lines: seq<string>)
    ensures Solid(Join(lines)) == SolidAll(lines)
    decreases |lines|
  {
    if |lines| == 1 {
      FlatMapOne(Solid, lines[0]);
      assert lines == [lines[0]];
    } else if lines != [] {
      var rest := Join(lines[1..]);
      SolidJoin(lines[1..]);
      SolidNewline(lines[0]);
      SolidAppend(lines[0] + "\n", rest);
    }
  }

  lemma {:induction false} JoinSplit(s: string)
    ensures Join(Split(s)) == s
    decreases |s|
  {
    if s != "" {
      JoinSplit(s[1..]);
      var rest := Split(s[1..]);
      var lines := Split(s);
      assert s == [s[0]] + s[1..];
      if s[0] == '\n' {
        assert lines[1..] == rest;
        assert Join(lines) == "" + "\n" + Join(rest);
      } else {
        assert lines[1..] == rest[1..];
        assert |rest| > 1 ==> Join(lines) == ([s[0]] + rest[0]) + "\n" + Join(rest[1..]);
      }
    }
  }

  lemma {:induction false} SplitLinesClean(s: string)
    ensures forall k :: 0 <= k < |Split(s)| ==> '\n' !in Split(s)[k]
    decreases |s|
  {
    if s != "" {
      SplitLinesClean(s[1..]);
    }
  }

  lemma {:induction false} SplitLine(line: string)
    requires '\n' !in line
    ensures Split(line) == [line]
    decreases |line|
  {
    if line != "" {
      SplitLine(line[1..]);
      assert line == [line[0]] + line[1..];
    }
  }

  lemma {:induction false} SplitFirst(line: string, rest: string)
    requires '\n' !in line
    ensures Split(line + "\n" + rest) == [line] + Split(rest)
    decreases |line|
  {
    var s := line + "\n" + rest;
    if line == "" {
      assert s[1..] == rest;
    } else {
      assert s[1..] == line[1..] + "\n" + rest;
      SplitFirst(line[1..], rest);
      assert line == [line[0]] + line[1..];
    }
  }

  /** The last line extended. */
  function Extended(lines: seq<string>, c: char): seq<string>
    requires lines != []
  {
    if c == '\n' then lines + [""] else lines[..|lines| - 1] + [lines[|lines| - 1] + [c]]
  }

  lemma ExtendedCons(first: string, rest: seq<string>, c: char)
    requires rest != []
    ensures Extended([first] + rest, c) == [first] + Extended(rest, c)
  {
  }

  lemma ExtendedFirst(a: char, rest: seq<string>, c: char)
    requires rest != []
    ensures Extended([[a] + rest[0]] + rest[1..], c) ==
            [[a] + Extended(rest, c)[0]] + Extended(rest, c)[1..]
  {
    var lines, n := [[a] + rest[0]] + rest[1..], |rest|;
    assert [a] + (rest[0] + [c]) == ([a] + rest[0]) + [c];
    if c != '\n' && n > 1 {
      assert lines[..n - 1] == [[a] + rest[0]] + rest[1..n - 1];
      assert Extended(rest, c)[1..] == rest[1..n - 1] + [rest[n - 1] + [c]];
    }
  }

  lemma {:induction false} SplitSnoc(s: string, c: char)
    ensures Split(s + [c]) == Extended(Split(s), c)
    decreases |s|
  {
    if s == "" {
      assert "" + [c] == [c] && [c][1..] == "";
      assert Split("") == [""];
      assert [c] + "" == "" + [c];
    } else {
      assert (s + [c])[1..] == s[1..] + [c];
      SplitSnoc(s[1..], c);
      ExtendedCons("", Split(s[1..]), c);
      ExtendedFirst(s[0], Split(s[1..]), c);
    }
  }

  /** Lines joined and split again are the same lines. */
  lemma {:induction false} SplitJoin(lines: seq<string>)
    requires lines != [] && forall k :: 0 <= k < |lines| ==> '\n' !in lines[k]
    ensures Split(Join(lines)) == lines
    decreases |lines|
  {
    if |lines| == 1 {
      SplitLine(lines[0]);
    } else {
      SplitFirst(lines[0], Join(lines[1..]));
      SplitJoin(lines[1..]);
    }
  }

  lemma {:induction false} JoinAppend(a: seq<string>, b: seq<string>)
    requires a != [] && b != []
    ensures Join(a + b) == Join(a) + "\n" + Join(b)
    decreases |a|
  {
    assert (a + b)[1..] == a[1..] + b;
    if |a| == 1 {
      assert a[1..] + b == b;
    } else {
      JoinAppend(a[1..], b);
    }
  }

  /** The length of lines each ended by a newline. */
  function Weight(lines: seq<string>): nat
  {
    if lines == [] then 0 else |lines[0]| + 1 + Weight(lines[1..])
  }

  lemma {:induction false} JoinLength(lines: seq<string>)
    ensures lines != [] ==> |Join(lines)| + 1 == Weight(lines)
    ensures |lines| <= Weight(lines)
    decreases |lines|
  {
    if |lines| == 1 {
      assert lines[1..] == [];
    } else if lines != [] {
      JoinLength(lines[1..]);
    }
  }

  lemma {:induction false} WeightAppend(a: seq<string>, b: seq<string>)
    ensures Weight(a + b) == Weight(a) + Weight(b)
    decreases |a|
  {
    if a == [] {
      assert a + b == b;
    } else {
      assert (a + b)[1..] == a[1..] + b;
      WeightAppend(a[1..], b);
    }
  }

  lemma WeightSnoc(a: seq<string>, line: string)
    ensures Weight(a + [line]) == Weight(a) + |line| + 1
  {
    WeightAppend(a, [line]);
    assert [line][1..] == [];
    assert Weight([line]) == |line| + 1;
  }

  // ---------- stripped text ----------

  /** Nothing to strip at either end. */
  predicate Trim(s: string)
  {
    s != "" ==> !IsSpace(s[0]) && !IsSpace(s[|s| - 1])
  }

  lemma {:induction false} RStripEnd(s: string)
    ensures RStrip(s) != "" ==> !IsSpace(RStrip(s)[|RStrip(s)| - 1])
    decreases |s|
  {
    if s != "" && IsSpace(s[|s| - 1]) {
      RStripEnd(s[..|s| - 1]);
    }
  }

  lemma {:induction false} LStripStart(s: string)
    ensures LStrip(s) != "" ==> !IsSpace(LStrip(s)[0])
    decreases |s|
  {
    if s != "" && IsSpace(s[0]) {
      LStripStart(s[1..]);
    }
  }

  lemma StripTrims(s: string)
    ensures Trim(Strip(s))
  {
    LStripStart(s);
    RStripEnd(LStrip(s));
  }

  lemma {:induction false} LStripAppend(a: string, b: string)
    requires LStrip(a) != ""
    ensures LStrip(a + b) == LStrip(a) + b
    decreases |a|
  {
    if IsSpace(a[0]) {
      assert (a + b)[1..] == a[1..] + b;
      LStripAppend(a[1..], b);
    }
  }

  lemma {:induction false} RStripAppend(a: string, b: string)
    requires RStrip(b) != ""
    ensures RStrip(a + b) == a + RStrip(b)
    decreases |b|
  {
    if IsSpace(b[|b| - 1]) {
      assert (a + b)[..|a + b| - 1] == a + b[..|b| - 1];
      RStripAppend(a, b[..|b| - 1]);
    }
  }

  lemma {:induction false} LStripBlank(a: string, c: char)
    requires LStrip(a) == "" && IsSpace(c)
    ensures LStrip(a + [c]) == ""
    decreases |a|
  {
    if a == "" {
      assert (a + [c])[1..] == "";
    } else {
      assert (a + [c])[1..] == a[1..] + [c];
      LStripBlank(a[1..], c);
    }
  }

  lemma {:induction false} StripOfRStrip(s: string)
    ensures Strip(RStrip(s)) == Strip(s)
    decreases |s|
  {
    if s != "" && IsSpace(s[|s| - 1]) {
      var init, last := s[..|s| - 1], s[|s| - 1];
      assert s == init + [last];
      StripOfRStrip(init);
      if LStrip(init) == "" {
        LStripBlank(init, last);
      } else {
        LStripAppend(init, [last]);
        assert (LStrip(init) + [last])[..|LStrip(init)|] == LStrip(init);
      }
    }
  }

  lemma StripOfLStrip(s: string)
    ensures Strip(LStrip(s)) == Strip(s)
  {
    LStripStart(s);
  }

  lemma {:induction false} LStripPart(s: string)
    ensures forall c :: c in LStrip(s) ==> c in s
    decreases |s|
  {
    if s != "" && IsSpace(s[0]) {
      LStripPart(s[1..]);
    }
  }

  lemma LStripJoin(first: string, rest: seq<string>)
    requires rest != [] && LStrip(first) != ""
    ensures LStrip(Join([first] + rest)) == Join([LStrip(first)] + rest)
  {
    JoinAppend([first], rest);
    JoinAppend([LStrip(first)], rest);
    LStripAppend(first, "\n" + Join(rest));
    assert first + "\n" + Join(rest) == first + ("\n" + Join(rest));
    assert LStrip(first) + "\n" + Join(rest) == LStrip(first) + ("\n" + Join(rest));
  }

  lemma RStripJoin(front: seq<string>, last: string)
    requires front != [] && RStrip(last) != ""
    ensures RStrip(Join(front + [last])) == Join(front + [RStrip(last)])
  {
    JoinAppend(front, [last]);
    JoinAppend(front, [RStrip(last)]);
    RStripAppend(Join(front) + "\n", last);
  }

  /** Stripping several lines, none of them blank, strips the first and the last. */
  lemma StripLines(lines: seq<string>) returns (stripped: seq<string>)
    requires 2 <= |lines| && forall k :: 0 <= k < |lines| ==> Strip(lines[k]) != "" && '\n' !in lines[k]
    ensures |stripped| == |lines| && Strip(Join(lines)) == Join(stripped)
    ensures forall k :: 0 <= k < |lines| ==> Strip(stripped[k]) == Strip(lines[k]) && '\n' !in stripped[k]
  {
    var n := |lines| - 1;
    var first, mid, last := lines[0], lines[1..n], lines[n];
    StripOfLStrip(first);
    StripOfRStrip(last);
    LStripPart(first);
    stripped := [LStrip(first)] + mid + [RStrip(last)];
    StripEnds(first, mid, last);
    FirstAndLast(lines);
  }

  lemma FirstAndLast<T>(s: seq<T>)
    requires 2 <= |s|
    ensures s == [s[0]] + s[1..|s| - 1] + [s[|s| - 1]]
  {
  }

  lemma StripEnds(first: string, mid: seq<string>, last: string)
    requires LStrip(first) != "" && RStrip(last) != ""
    ensures Strip(Join([first] + mid + [last])) == Join([LStrip(first)] + mid + [RStrip(last)])
  {
    LStripJoin(first, mid + [last]);
    RStripJoin([LStrip(first)] + mid, last);
    Assoc([first], mid, [last]);
    Assoc([LStrip(first)], mid, [last]);
  }

  lemma TrimFixed(s: string)
    requires Trim(s)
    ensures Strip(s) == s
  {
  }

  lemma {:induction false} LStripEndsWith(a: string, b: string)
    requires b != "" && !IsSpace(b[0])
    ensures LStrip(a + b) == LStrip(a) + b
    decreases |a|
  {
    if a == "" {
      assert a + b == b;
    } else if IsSpace(a[0]) {
      assert (a + b)[1..] == a[1..] + b;
      LStripEndsWith(a[1..], b);
    }
  }

  /** Text put in front of trimmed text is stripped only on its own left side. */
  lemma StripEndsWith(a: string, b: string)
    requires b != "" && Trim(b)
    ensures Strip(a + b) == LStrip(a) + b
  {
    LStripEndsWith(a, b);
    var s := LStrip(a) + b;
    assert s[|s| - 1] == b[|b| - 1];
    assert RStrip(s) == s;
  }
}
