/** Chunks as passages of a text. */
module Passages {
  import opened Text

  predicate AllSpace(s: string)
  {
    forall k :: 0 <= k < |s| ==> IsSpace(s[k])
  }

  predicate PassageAt(text: string, chunk: string, from: int)
  {
    0 <= from && from + |chunk| <= |text| && text[from..from + |chunk|] == chunk
  }

  /** The chunks are, in order, disjoint passages of the text, with nothing but whitespace
      before, between and after them. */
  ghost predicate PassagesOf(text: string, chunks: seq<string>)
    decreases |chunks|
  {
    if chunks == [] then AllSpace(text)
    else
      var n := |chunks| - 1;
      exists from :: PassageAt(text, chunks[n], from) && AllSpace(text[from + |chunks[n]|..])
                     && PassagesOf(text[..from], chunks[..n])
  }

  lemma PassageBefore(text: string, more: string, chunk: string, from: int)
    requires PassageAt(text, chunk, from) && AllSpace(text[from + |chunk|..]) && AllSpace(more)
    ensures PassageAt(text + more, chunk, from) && AllSpace((text + more)[from + |chunk|..])
    ensures (text + more)[..from] == text[..from]
  {
    assert (text + more)[from..from + |chunk|] == text[from..from + |chunk|];
    assert (text + more)[from + |chunk|..] == text[from + |chunk|..] + more;
  }

  lemma {:induction false} PassagesThenSpace(text: string, chunks: seq<string>, more: string)
    requires PassagesOf(text, chunks) && AllSpace(more)
    ensures PassagesOf(text + more, chunks)
  {
    if chunks != [] {
      var n := |chunks| - 1;
      var from :| PassageAt(text, chunks[n], from) && AllSpace(text[from + |chunks[n]|..])
                  && PassagesOf(text[..from], chunks[..n]);
      PassageBefore(text, more, chunks[n], from);
    }
  }

  lemma {:induction false} PassagesThenOne(text: string, chunks: seq<string>, chunk: string)
    requires PassagesOf(text, chunks)
    ensures PassagesOf(text + chunk, chunks + [chunk])
  {
    var all := chunks + [chunk];
    assert all[..|chunks|] == chunks;
    assert (text + chunk)[..|text|] == text;
    assert PassageAt(text + chunk, chunk, |text|);
  }

  lemma {:induction false} LStripPassage(s: string) returns (before: string)
    ensures s == before + LStrip(s) && AllSpace(before)
    decreases |s|
  {
    if s != "" && IsSpace(s[0]) {
      before := LStripPassage(s[1..]);
      before := [s[0]] + before;
    } else {
      before := "";
    }
  }

  lemma {:induction false} RStripPassage(s: string) returns (after: string)
    ensures s == RStrip(s) + after && AllSpace(after)
    decreases |s|
  {
    if s != "" && IsSpace(s[|s| - 1]) {
      after := RStripPassage(s[..|s| - 1]);
      after := after + [s[|s| - 1]];
    } else {
      after := "";
    }
  }

  function Emit(raw: string): seq<string>
  {
    if Strip(raw) == "" then [] else [Strip(raw)]
  }

  /** Further text, and what it becomes when it is stripped. */
  lemma PassagesThenStripped(text: string, chunks: seq<string>, raw: string)
    requires PassagesOf(text, chunks)
    ensures PassagesOf(text + raw, chunks + Emit(raw))
  {
    var before, chunk, after := StripPassage(raw);
    PassagesThenSpace(text, chunks, before);
    if chunk == "" {
      PassagesThenSpace(text + before, chunks, after);
      assert before + "" == before && chunks + [] == chunks;
    } else {
      PassagesThenOne(text + before, chunks, chunk);
      PassagesThenSpace(text + before + chunk, chunks + [chunk], after);
      Assoc(text, before, chunk);
    }
    Assoc(text, before + chunk, after);
    Assoc(text, before, after);
  }

  lemma StripPassage(s: string) returns (before: string, chunk: string, after: string)
    ensures s == (before + chunk) + after && chunk == Strip(s) && AllSpace(before) && AllSpace(after)
  {
    before := LStripPassage(s);
    after := RStripPassage(LStrip(s));
    chunk := Strip(s);
    Assoc(before, chunk, after);
  }

  /** Whitespace at the end may go, too. */
  lemma {:induction false} PassagesWithoutEnd(text: string, more: string, chunks: seq<string>)
    requires PassagesOf(text + more, chunks) && AllSpace(more)
    requires forall k :: 0 <= k < |chunks| ==> chunks[k] != "" && Trim(chunks[k])
    ensures PassagesOf(text, chunks)
  {
    if chunks == [] {
      assert (text + more)[..|text|] == text;
    } else {
      var n := |chunks| - 1;
      var from :| PassageAt(text + more, chunks[n], from) && AllSpace((text + more)[from + |chunks[n]|..])
                  && PassagesOf((text + more)[..from], chunks[..n]);
      PassageWithoutEnd(text, more, chunks[n], from);
    }
  }

  lemma PassageWithoutEnd(text: string, more: string, chunk: string, from: int)
    requires PassageAt(text + more, chunk, from) && AllSpace((text + more)[from + |chunk|..]) && AllSpace(more)
    requires chunk != "" && Trim(chunk)
    ensures PassageAt(text, chunk, from) && AllSpace(text[from + |chunk|..])
    ensures (text + more)[..from] == text[..from]
  {
    var all, to := text + more, from + |chunk|;
    assert all[from..to][|chunk| - 1] == all[to - 1];
    assert forall k :: |text| <= k < |all| ==> all[k] == more[k - |text|];
    assert text[from..to] == all[from..to];
    assert all[to..] == text[to..] + more;
    assert all[to..][..|text| - to] == text[to..];
  }

  // ---------- lines ----------

  function EndLine(line: string): string { line + "\n" }

  /** Lines, each with the newline that ends it. */
  function Ended(lines: seq<string>): string
  {
    FlatMap(EndLine, lines)
  }

  lemma {:induction false} EndedJoin(lines: seq<string>)
    requires lines != []
    ensures Ended(lines) == Join(lines) + "\n"
    decreases |lines|
  {
    if |lines| == 1 {
      FlatMapOne(EndLine, lines[0]);
      assert lines == [lines[0]];
    } else {
      EndedJoin(lines[1..]);
    }
  }

  lemma PassagesThenLines(text: string, chunks: seq<string>, lines: seq<string>)
    requires PassagesOf(text, chunks) && lines != []
    ensures PassagesOf(text + Ended(lines), chunks + Emit(Join(lines)))
  {
    PassagesThenStripped(text, chunks, Join(lines));
    PassagesThenSpace(text + Join(lines), chunks + Emit(Join(lines)), "\n");
    EndedJoin(lines);
    Assoc(text, Join(lines), "\n");
  }
}
