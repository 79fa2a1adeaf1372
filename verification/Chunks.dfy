/** Splitting extracted text into chunks on paragraph boundaries. */
module Chunks {
  import opened Basics

  const CHUNK_TARGET: nat := 2000

  datatype Chunk = Chunk(ordinal: nat, offset: nat, text: string)

  // ---- paragraphs -------------------------------------------------------

  /** Just after the first blank line, or the end. */
  function ParagraphEnd(s: string, from: nat): (e: nat)
    requires from < |s|
    ensures from < e <= |s|
    decreases |s| - from
  {
    if from + 2 <= |s| && s[from] == '\n' && s[from + 1] == '\n' then from + 2
    else if from + 1 == |s| then |s|
    else ParagraphEnd(s, from + 1)
  }

  /** `split_inclusive("\n\n")`. */
  function Paragraphs(s: string): seq<string>
    decreases |s|
  {
    if s == [] then [] else [s[..ParagraphEnd(s, 0)]] + Paragraphs(s[ParagraphEnd(s, 0)..])
  }

  function Flat(parts: seq<string>): string {
    if parts == [] then [] else Flat(parts[..|parts| - 1]) + parts[|parts| - 1]
  }

  lemma {:induction false} FlatConcat(a: seq<string>, b: seq<string>)
    ensures Flat(a + b) == Flat(a) + Flat(b)
    decreases |b|
  {
    if b == [] {
      assert a + b == a;
    } else {
      var n := |b| - 1;
      var ab := a + b;
      assert ab[..|ab| - 1] == a + b[..n] && ab[|ab| - 1] == b[n];
      FlatConcat(a, b[..n]);
      assert Flat(ab) == Flat(a + b[..n]) + b[n];
    }
  }

  lemma {:induction false} FlatOne(p: string)
    ensures Flat([p]) == p
  {
    assert [p][..0] == [];
  }

  predicate NoneEmpty(parts: seq<string>) {
    forall i :: 0 <= i < |parts| ==> parts[i] != []
  }

  lemma {:induction false} ParagraphsMakeUp(s: string)
    ensures Flat(Paragraphs(s)) == s && NoneEmpty(Paragraphs(s))
    decreases |s|
  {
    if s != [] {
      var e := ParagraphEnd(s, 0);
      var first, rest := s[..e], Paragraphs(s[e..]);
      ParagraphsMakeUp(s[e..]);
      FlatConcat([first], rest);
      FlatOne(first);
      assert s == first + s[e..];
      assert Paragraphs(s) == [first] + rest;
    }
  }

  predicate BlankLineAt(s: string, i: nat) {
    i + 2 <= |s| && s[i] == '\n' && s[i + 1] == '\n'
  }

  lemma {:induction false} EndIsFirst(s: string, from: nat)
    requires from < |s|
    ensures var e := ParagraphEnd(s, from);
            && (forall i: nat :: from <= i < e - 2 ==> !BlankLineAt(s, i))
            && (e < |s| ==> e >= from + 2 && BlankLineAt(s, e - 2))
    decreases |s| - from
  {
    if !BlankLineAt(s, from) && from + 1 < |s| {
      EndIsFirst(s, from + 1);
    }
  }

  /** Paragraphs are cut after every blank line and nowhere else. */
  lemma {:induction false} CutAtBlankLines(s: string, k: nat)
    requires k < |Paragraphs(s)|
    ensures var p := Paragraphs(s)[k];
            && (forall i: nat :: i + 2 < |p| ==> !BlankLineAt(p, i))
            && (k + 1 < |Paragraphs(s)| ==> |p| >= 2 && BlankLineAt(p, |p| - 2))
    decreases |s|
  {
    var e := ParagraphEnd(s, 0);
    EndIsFirst(s, 0);
    if k == 0 {
      forall i: nat | i + 2 < e ensures !BlankLineAt(s[..e], i) {
        assert !BlankLineAt(s, i);
      }
    } else {
      CutAtBlankLines(s[e..], k - 1);
    }
  }

  // ---- runs of paragraphs -----------------------------------------------

  /** The runs closed so far, and the one still open. */
  datatype Runs = Runs(closed: seq<seq<string>>, open: seq<string>)

  function Next(r: Runs, p: string): Runs {
    var open := r.open + [p];
    if |Flat(open)| >= CHUNK_TARGET then Runs(r.closed + [open], []) else Runs(r.closed, open)
  }

  function RunsOf(paras: seq<string>, n: nat): Runs
    requires n <= |paras|
  {
    if n == 0 then Runs([], []) else Next(RunsOf(paras, n - 1), paras[n - 1])
  }

  function Texts(runs: seq<seq<string>>): (ts: seq<string>)
    ensures |ts| == |runs|
  {
    seq(|runs|, i requires 0 <= i < |runs| => Flat(runs[i]))
  }

  /** Slices of the text, as chunks: each is its slice trimmed, at the slice's offset. */
  function ChunksOf(slices: seq<string>): (cs: seq<Chunk>)
    ensures |cs| == |slices|
  {
    seq(|slices|, k requires 0 <= k < |slices| => Chunk(k, |Flat(slices[..k])|, Trim(slices[k])))
  }

  /** The slices of a text: every closed run, and the open one unless it is blank. */
  function Slices(s: string): seq<string> {
    var r := RunsOf(Paragraphs(s), |Paragraphs(s)|);
    Texts(r.closed) + (if Blank(Flat(r.open)) then [] else [Flat(r.open)])
  }

  lemma {:induction false} ChunkPush(slices: seq<string>, t: string)
    ensures ChunksOf(slices + [t]) == ChunksOf(slices) + [Chunk(|slices|, |Flat(slices)|, Trim(t))]
  {
    var all := slices + [t];
    forall k | 0 <= k < |slices| ensures ChunksOf(all)[k] == ChunksOf(slices)[k] {
      assert all[..k] == slices[..k];
    }
    assert all[..|slices|] == slices;
  }

  lemma {:induction false} TextsPush(runs: seq<seq<string>>, r: seq<string>)
    ensures Texts(runs + [r]) == Texts(runs) + [Flat(r)]
  {
  }

  lemma {:induction false} FlatPush(parts: seq<string>, p: string)
    ensures Flat(parts + [p]) == Flat(parts) + p
  {
    assert (parts + [p])[..|parts|] == parts;
  }

  lemma {:induction false} OneMore(r: Runs, p: string)
    ensures Flat(Texts(Next(r, p).closed)) + Flat(Next(r, p).open)
            == Flat(Texts(r.closed)) + Flat(r.open) + p
  {
    var open := r.open + [p];
    FlatPush(r.open, p);
    TextsPush(r.closed, open);
    FlatPush(Texts(r.closed), Flat(open));
    assert Flat(Texts(r.closed)) + (Flat(r.open) + p) == Flat(Texts(r.closed)) + Flat(r.open) + p;
    assert Flat([]) == [];
  }

  predicate MakesUp(r: Runs, text: string) {
    Flat(Texts(r.closed)) + Flat(r.open) == text
  }

  lemma {:induction false} OneMoreMakesUp(r: Runs, before: seq<string>, p: string)
    requires MakesUp(r, Flat(before))
    ensures MakesUp(Next(r, p), Flat(before + [p]))
  {
    OneMore(r, p);
    FlatPush(before, p);
  }

  lemma {:induction false} RunsStep(paras: seq<string>, k: nat)
    requires k < |paras| && MakesUp(RunsOf(paras, k), Flat(paras[..k]))
    ensures MakesUp(RunsOf(paras, k + 1), Flat(paras[..k + 1]))
  {
    var r, before, p := RunsOf(paras, k), paras[..k], paras[k];
    OneMoreMakesUp(r, before, p);
    assert paras[..k + 1] == before + [p];
  }

  /** The closed runs and the open one, joined, are the paragraphs read so far. */
  lemma {:induction false} RunsMakeUp(paras: seq<string>, n: nat)
    requires n <= |paras|
    ensures MakesUp(RunsOf(paras, n), Flat(paras[..n]))
  {
    if n > 0 {
      var k := n - 1;
      RunsMakeUp(paras, k);
      RunsStep(paras, k);
    }
  }

  lemma {:induction false} OpenIsNotEmpty(parts: seq<string>)
    requires NoneEmpty(parts)
    ensures Flat(parts) == [] <==> parts == []
  {
    if parts != [] {
      assert parts[|parts| - 1] != [];
    }
  }

  lemma {:induction false} RunsHaveNoEmpty(paras: seq<string>, n: nat)
    requires n <= |paras| && NoneEmpty(paras)
    ensures NoneEmpty(RunsOf(paras, n).open)
  {
    if n > 0 {
      RunsHaveNoEmpty(paras, n - 1);
    }
  }

  method ChunkText(s: string) returns (out: seq<Chunk>)
    ensures out == ChunksOf(Slices(s))
  {
    out := [];
    var buf, bufOffset, offset := "", 0, 0;
    var paras := Paragraphs(s);
    ParagraphsMakeUp(s);
    ghost var r := Runs([], []);
    for i := 0 to |paras|
      invariant r == RunsOf(paras, i)
      invariant out == ChunksOf(Texts(r.closed)) && buf == Flat(r.open)
      invariant offset == |Flat(paras[..i])|
      invariant r.open != [] ==> bufOffset == |Flat(Texts(r.closed))|
    {
      RunsHaveNoEmpty(paras, i);
      OpenIsNotEmpty(r.open);
      RunsMakeUp(paras, i);
      if buf == "" {
        bufOffset := offset;
      }
      FlatPush(r.open, paras[i]);
      assert paras[..i + 1] == paras[..i] + [paras[i]];
      FlatPush(paras[..i], paras[i]);
      buf := buf + paras[i];
      offset := offset + |paras[i]|;
      if |buf| >= CHUNK_TARGET {
        ChunkPush(Texts(r.closed), buf);
        TextsPush(r.closed, r.open + [paras[i]]);
        out := out + [Chunk(|out|, bufOffset, Trim(buf))];
        buf := "";
      }
      r := RunsOf(paras, i + 1);
    }
    if !Blank(buf) {
      assert r.open != [];
      ChunkPush(Texts(r.closed), buf);
      out := out + [Chunk(|out|, bufOffset, Trim(buf))];
    } else {
      assert Texts(r.closed) + [] == Texts(r.closed);
    }
  }

  // ---- conservation -----------------------------------------------------

  /** A run that reached the target, and would not have without its last paragraph. */
  predicate Shortest(run: seq<string>) {
    run != [] && |Flat(run)| >= 2000 && |Flat(run[..|run| - 1])| < 2000
  }

  lemma {:induction false} ClosedAreShortest(paras: seq<string>, n: nat)
    requires n <= |paras|
    ensures forall k :: 0 <= k < |RunsOf(paras, n).closed| ==> Shortest(RunsOf(paras, n).closed[k])
    ensures |Flat(RunsOf(paras, n).open)| < CHUNK_TARGET
  {
    if n > 0 {
      ClosedAreShortest(paras, n - 1);
      var open := RunsOf(paras, n - 1).open;
      assert (open + [paras[n - 1]])[..|open|] == open;
    }
  }

  /** The slices, end to end, are the whole text but for a blank tail; all but the last
      are shortest runs of whole paragraphs reaching the target. */
  lemma {:induction false} NothingIsLost(s: string)
    ensures exists tail :: Blank(tail) && Flat(Slices(s)) + tail == s
    ensures var closed := RunsOf(Paragraphs(s), |Paragraphs(s)|).closed;
            |Slices(s)| <= |closed| + 1
            && forall k :: 0 <= k < |closed| ==> Slices(s)[k] == Flat(closed[k]) && Shortest(closed[k])
  {
    var paras := Paragraphs(s);
    var r := RunsOf(paras, |paras|);
    ParagraphsMakeUp(s);
    RunsMakeUp(paras, |paras|);
    assert paras[..|paras|] == paras;
    ClosedAreShortest(paras, |paras|);
    if Blank(Flat(r.open)) {
      assert Slices(s) == Texts(r.closed);
      assert Flat(Slices(s)) + Flat(r.open) == s;
    } else {
      FlatPush(Texts(r.closed), Flat(r.open));
      assert Flat(Slices(s)) + [] == s;
      assert Blank([]);
    }
  }

  lemma {:induction false} SliceStands(slices: seq<string>, k: nat)
    requires k < |slices|
    ensures |Flat(slices[..k])| + |slices[k]| <= |Flat(slices)|
    ensures Flat(slices)[|Flat(slices[..k])|..|Flat(slices[..k])| + |slices[k]|] == slices[k]
  {
    var n := |slices| - 1;
    if k < n {
      SliceStands(slices[..n], k);
      assert slices[..n][..k] == slices[..k];
    }
  }

  lemma {:induction false} SlicesAreNotEmpty(s: string, k: nat)
    requires k < |Slices(s)|
    ensures Slices(s)[k] != []
  {
    ClosedAreShortest(Paragraphs(s), |Paragraphs(s)|);
    assert Blank([]);
  }

  /** Every chunk is the trim of the slice that starts at its recorded offset, and chunks
      are numbered from 0. */
  lemma {:induction false} ChunksCiteTheText(s: string, k: nat)
    requires k < |ChunksOf(Slices(s))|
    ensures var c, slice := ChunksOf(Slices(s))[k], Slices(s)[k];
            && c.ordinal == k && c.offset + |slice| <= |s|
            && s[c.offset..c.offset + |slice|] == slice && c.text == Trim(slice)
  {
    NothingIsLost(s);
    var slices := Slices(s);
    var tail :| Blank(tail) && Flat(slices) + tail == s;
    SliceStands(slices, k);
    InFront(Flat(slices), tail, |Flat(slices[..k])|, |slices[k]|);
  }

  lemma {:induction false} InFront(a: string, b: string, from: nat, n: nat)
    requires from + n <= |a|
    ensures (a + b)[from..from + n] == a[from..from + n]
  {
  }

  /** Each chunk starts where the slice before it ends, so offsets strictly increase. */
  lemma {:induction false} OffsetsIncrease(s: string, k: nat)
    requires k + 1 < |ChunksOf(Slices(s))|
    ensures var cs := ChunksOf(Slices(s));
            cs[k + 1].offset == cs[k].offset + |Slices(s)[k]| && cs[k + 1].offset > cs[k].offset
  {
    var slices := Slices(s);
    SlicesAreNotEmpty(s, k);
    assert slices[..k + 1] == slices[..k] + [slices[k]];
    FlatPush(slices[..k], slices[k]);
  }
}
