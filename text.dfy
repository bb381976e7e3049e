/** The handful of Python string operations the model needs (`replace`,
    `lower`, `rindex`, `split`), and the line-joining used by every renderer. */
module Text {
  import opened Wrappers

  /** `s.replace(a, b)` for one-character strings `a` and `b`. */
  function ReplaceChar(s: string, a: char, b: char): (r: string)
    ensures |r| == |s|
    ensures forall i :: 0 <= i < |s| ==> r[i] == if s[i] == a then b else s[i]
    ensures a != b ==> a !in r
  {
    if s == [] then [] else [if s[0] == a then b else s[0]] + ReplaceChar(s[1..], a, b)
  }

  /** Lower-casing of one character: only 'A'..'Z' are mapped. */
  function LowerChar(c: char): char {
    if 'A' <= c <= 'Z' then (c as int + 32) as char else c
  }

  /** `s.lower()`, restricted to ASCII letters. */
  function Lower(s: string): (r: string)
    ensures |r| == |s|
    ensures forall i :: 0 <= i < |s| ==> r[i] == LowerChar(s[i])
  {
    if s == [] then [] else [LowerChar(s[0])] + Lower(s[1..])
  }

  /** `s.rindex(c)`, with `None` where Python raises ValueError. */
  function LastIndexOf(s: string, c: char): (r: Option<nat>)
    ensures r.None? <==> c !in s
    ensures r.Some? ==> r.value < |s| && s[r.value] == c && c !in s[r.value + 1..]
  {
    if s == [] then None
    else if s[|s| - 1] == c then Some(|s| - 1)
    else
      var r := LastIndexOf(s[..|s| - 1], c);
      assert s == s[..|s| - 1] + [s[|s| - 1]];
      r
  }

  /** The text `res` accumulates when each line is appended followed by "\n". */
  function JoinLines(lines: seq<string>): string {
    if lines == [] then "" else JoinLines(lines[..|lines| - 1]) + lines[|lines| - 1] + "\n"
  }

  lemma {:induction false} JoinLinesAppend(a: seq<string>, b: seq<string>)
    ensures JoinLines(a + b) == JoinLines(a) + JoinLines(b)
    decreases |b|
  {
    if b == [] {
      assert a + b == a;
    } else {
      var n := |b| - 1;
      assert (a + b)[..|a + b| - 1] == a + b[..n];
      assert (a + b)[|a + b| - 1] == b[n];
      JoinLinesAppend(a, b[..n]);
    }
  }

  /** `JoinLinesAppend` for a text that already has a prefix. */
  lemma JoinLinesAfter(res: string, a: seq<string>, b: seq<string>, r: string)
    requires r == res + JoinLines(a) + JoinLines(b)
    ensures r == res + JoinLines(a + b)
  {
    JoinLinesAppend(a, b);
  }

  lemma JoinLinesSnoc(lines: seq<string>, l: string)
    ensures JoinLines(lines + [l]) == JoinLines(lines) + l + "\n"
  {
    assert (lines + [l])[..|lines|] == lines;
  }

  /** `JoinLinesSnoc` for a text that already has a prefix. */
  lemma JoinLinesSnocAfter(start: string, lines: seq<string>, l: string, r: string)
    requires r == start + JoinLines(lines)
    ensures r + l + "\n" == start + JoinLines(lines + [l])
  {
    JoinLinesSnoc(lines, l);
  }

  /** `s.split(c)` for a one-character separator: the pieces between
      separators, always at least one. */
  function Split(s: string, c: char): (r: seq<string>)
    ensures |r| >= 1
    decreases |s|
  {
    if s == [] then [""]
    else
      var rest := Split(s[1..], c);
      if s[0] == c then [""] + rest else [[s[0]] + rest[0]] + rest[1..]
  }

  /** Splitting at the first separator. */
  lemma {:induction false} SplitAt(a: string, c: char, b: string)
    requires c !in a
    ensures Split(a + [c] + b, c) == [a] + Split(b, c)
    decreases |a|
  {
    var s := a + [c] + b;
    if a == [] {
      assert s[1..] == b;
    } else {
      assert s[1..] == a[1..] + [c] + b;
      SplitAt(a[1..], c, b);
      assert [a[0]] + a[1..] == a;
    }
  }

  /** Splitting joined lines at "\n" gives the lines back, plus the empty
      piece after the final newline. */
  lemma {:induction false} SplitJoinLines(lines: seq<string>)
    requires forall i :: 0 <= i < |lines| ==> '\n' !in lines[i]
    ensures Split(JoinLines(lines), '\n') == lines + [""]
    decreases |lines|
  {
    if lines != [] {
      var rest := lines[1..];
      assert lines == [lines[0]] + rest;
      JoinLinesAppend([lines[0]], rest);
      assert JoinLines([lines[0]]) == lines[0] + "\n" by {
        assert [lines[0]][..0] == [];
      }
      assert JoinLines(lines) == lines[0] + ['\n'] + JoinLines(rest);
      SplitAt(lines[0], '\n', JoinLines(rest));
      SplitJoinLines(rest);
    }
  }

  /** The lines satisfying `p`, in their original order. */
  function Filter(lines: seq<string>, p: string -> bool): (r: seq<string>)
    ensures |r| <= |lines|
    ensures forall i :: 0 <= i < |r| ==> p(r[i])
  {
    if lines == [] then []
    else
      var last := lines[|lines| - 1];
      Filter(lines[..|lines| - 1], p) + if p(last) then [last] else []
  }

  lemma {:induction false} FilterAppend(a: seq<string>, b: seq<string>, p: string -> bool)
    ensures Filter(a + b, p) == Filter(a, p) + Filter(b, p)
    decreases |b|
  {
    if b == [] {
      assert a + b == a;
    } else {
      var n := |b| - 1;
      assert (a + b)[..|a + b| - 1] == a + b[..n];
      assert (a + b)[|a + b| - 1] == b[n];
      FilterAppend(a, b[..n], p);
    }
  }

  lemma FilterAppend4(a: seq<string>, b: seq<string>, c: seq<string>, d: seq<string>, p: string -> bool)
    ensures Filter(a + b + c + d, p) == Filter(a, p) + Filter(b, p) + Filter(c, p) + Filter(d, p)
  {
    FilterAppend(a + b + c, d, p);
    FilterAppend(a + b, c, p);
    FilterAppend(a, b, p);
  }

  /** Four pieces holding one line satisfying `p` each. */
  lemma FilterOnePerPiece(a: seq<string>, b: seq<string>, c: seq<string>, d: seq<string>, p: string -> bool,
                          x: string, y: string, z: string, w: string)
    requires Filter(a, p) == [x] && Filter(b, p) == [y] && Filter(c, p) == [z] && Filter(d, p) == [w]
    ensures Filter(a + b + c + d, p) == [x, y, z, w]
  {
    FilterAppend4(a, b, c, d, p);
  }

  lemma {:induction false} FilterNone(lines: seq<string>, p: string -> bool)
    requires forall i :: 0 <= i < |lines| ==> !p(lines[i])
    ensures Filter(lines, p) == []
    decreases |lines|
  {
    if lines != [] {
      FilterNone(lines[..|lines| - 1], p);
    }
  }

  /** The lines of several blocks, one block per key, in key order. */
  function Blocks<K>(keys: seq<K>, block: K -> seq<string>): seq<string> {
    if keys == [] then [] else Blocks(keys[..|keys| - 1], block) + block(keys[|keys| - 1])
  }

  function MapHeads<K>(keys: seq<K>, head: K -> string): (r: seq<string>)
    ensures |r| == |keys|
    ensures forall i :: 0 <= i < |keys| ==> r[i] == head(keys[i])
  {
    if keys == [] then [] else MapHeads(keys[..|keys| - 1], head) + [head(keys[|keys| - 1])]
  }

  /** Appending the text of the next block to the text of the blocks so far. */
  lemma JoinBlocksStep<K>(keys: seq<K>, block: K -> seq<string>, i: nat, res: string, a: string, b: string)
    requires i < |keys|
    requires res == JoinLines(Blocks(keys[..i], block))
    requires JoinLines(block(keys[i])) == a + b
    ensures res + a + b == JoinLines(Blocks(keys[..i + 1], block))
  {
    assert keys[..i + 1][..i] == keys[..i];
    JoinLinesAppend(Blocks(keys[..i], block), block(keys[i]));
  }

  /** A block that opens with a heading line and ends with an empty line. */
  lemma JoinFramed(h: string, lines: seq<string>)
    ensures JoinLines([h] + lines + [""]) == (h + "\n") + (JoinLines(lines) + "\n")
  {
    JoinLinesSnoc([h] + lines, "");
    JoinLinesAppend([h], lines);
    JoinLinesSnoc([], h);
  }

  /** When each block holds exactly one line satisfying `p`, the lines of
      all blocks satisfying `p` are those, one per block and in order. */
  lemma {:induction false} FilterBlocks<K>(keys: seq<K>, block: K -> seq<string>, p: string -> bool, head: K -> string)
    requires forall i :: 0 <= i < |keys| ==> Filter(block(keys[i]), p) == [head(keys[i])]
    ensures Filter(Blocks(keys, block), p) == MapHeads(keys, head)
    decreases |keys|
  {
    if keys != [] {
      var n := |keys| - 1;
      FilterBlocks(keys[..n], block, p, head);
      FilterAppend(Blocks(keys[..n], block), block(keys[n]), p);
    }
  }
}
