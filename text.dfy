/** The few Python string operations the adapter relies on: `sep.join(parts)`,
    `s.split(c)` for a one-character separator, and "the text before the first
    dot" as pandas' `str.split(".")[0]` computes it. */
module Text {

  /** Python's `sep.join(parts)`. */
  function Join(sep: string, parts: seq<string>): string
  {
    if parts == [] then ""
    else if |parts| == 1 then parts[0]
    else parts[0] + sep + Join(sep, parts[1..])
  }

  /** Python's `s.split(c)`: the maximal pieces between occurrences of `c`;
      there is always at least one piece. */
  function Split(s: string, c: char): (parts: seq<string>)
    ensures |parts| >= 1
  {
    if s == [] then [""]
    else
      var rest := Split(s[1..], c);
      if s[0] == c then [""] + rest
      else [[s[0]] + rest[0]] + rest[1..]
  }

  /** The text of `p` before its first '.', or all of `p` when it has none:
      a dot-free prefix that is followed by a dot or by nothing. */
  function FirstSegment(p: string): (s: string)
    ensures s <= p && '.' !in s
    ensures |s| < |p| ==> p[|s|] == '.'
  {
    if p == [] || p[0] == '.' then []
    else [p[0]] + FirstSegment(p[1..])
  }

  /** The derived column is the first piece of splitting the path on '.'. */
  lemma {:induction false} FirstSegmentIsSplitHead(p: string)
    ensures Split(p, '.')[0] == FirstSegment(p)
  {
    if p != [] && p[0] != '.' {
      FirstSegmentIsSplitHead(p[1..]);
    }
  }

  /** `Join` of one more part, seen from the front. */
  lemma JoinCons(sep: string, x: string, rest: seq<string>)
    ensures Join(sep, [x] + rest) == if rest == [] then x else x + sep + Join(sep, rest)
  {
    assert ([x] + rest)[1..] == rest;
  }

  /** `Join` of a fixed number of parts, written out. */
  lemma Join3(sep: string, a: string, b: string, c: string)
    ensures Join(sep, [a, b, c]) == a + sep + b + sep + c
  {
    JoinCons(sep, c, []);
    JoinCons(sep, b, [c]);
    JoinCons(sep, a, [b, c]);
    assert [a, b, c] == [a] + [b, c] && [b, c] == [b] + [c] && [c] == [c] + [];
  }

  lemma Join4(sep: string, a: string, b: string, c: string, d: string)
    ensures Join(sep, [a, b, c, d]) == a + sep + b + sep + c + sep + d
  {
    Join3(sep, b, c, d);
    JoinCons(sep, a, [b, c, d]);
    assert [a, b, c, d] == [a] + [b, c, d];
  }

  lemma Join5(sep: string, a: string, b: string, c: string, d: string, e: string)
    ensures Join(sep, [a, b, c, d, e]) == a + sep + b + sep + c + sep + d + sep + e
  {
    Join4(sep, b, c, d, e);
    JoinCons(sep, a, [b, c, d, e]);
    assert [a, b, c, d, e] == [a] + [b, c, d, e];
  }

  lemma Join6(sep: string, a: string, b: string, c: string, d: string, e: string, f: string)
    ensures Join(sep, [a, b, c, d, e, f]) == a + sep + b + sep + c + sep + d + sep + e + sep + f
  {
    Join5(sep, b, c, d, e, f);
    JoinCons(sep, a, [b, c, d, e, f]);
    assert [a, b, c, d, e, f] == [a] + [b, c, d, e, f];
  }

  /** `Join` of one more part, seen from the end. */
  lemma {:induction false} JoinSnoc(sep: string, parts: seq<string>, last: string)
    requires parts != []
    ensures Join(sep, parts + [last]) == Join(sep, parts) + sep + last
  {
    if |parts| == 1 {
      assert parts + [last] == [parts[0], last];
    } else {
      assert (parts + [last])[1..] == parts[1..] + [last];
      JoinSnoc(sep, parts[1..], last);
    }
  }

  /** With a non-empty separator, the join is empty exactly when there is
      nothing to join or a single empty part. */
  lemma {:induction false} JoinEmptyIff(sep: string, parts: seq<string>)
    requires sep != ""
    ensures Join(sep, parts) == "" <==> parts == [] || parts == [""]
  {
    if |parts| >= 2 {
      assert |Join(sep, parts)| >= |sep|;
    }
  }

  /** Splitting text that holds no separator gives the text back whole. */
  lemma {:induction false} SplitNoSeparator(s: string, c: char)
    requires c !in s
    ensures Split(s, c) == [s]
  {
    if s != [] {
      SplitNoSeparator(s[1..], c);
      assert [s[0]] + s[1..] == s;
    }
  }

  /** Splitting at a separator that follows a separator-free piece. */
  lemma {:induction false} SplitAfterPiece(a: string, c: char, b: string)
    requires c !in a
    ensures Split(a + [c] + b, c) == [a] + Split(b, c)
  {
    var s := a + [c] + b;
    if a == [] {
      assert s[1..] == b;
    } else {
      assert s[1..] == a[1..] + [c] + b;
      SplitAfterPiece(a[1..], c, b);
      assert [a[0]] + a[1..] == a;
    }
  }

  /** Splitting lines joined by the separator recovers them, when every line
      but the last is free of the separator; the last is split on its own. */
  lemma {:induction false} SplitJoin(lines: seq<string>, c: char)
    requires |lines| >= 1
    requires forall i :: 0 <= i < |lines| - 1 ==> c !in lines[i]
    ensures Split(Join([c], lines), c) == lines[..|lines| - 1] + Split(lines[|lines| - 1], c)
  {
    if |lines| > 1 {
      SplitJoin(lines[1..], c);
      SplitAfterPiece(lines[0], c, Join([c], lines[1..]));
      assert lines[0] + [c] + Join([c], lines[1..]) == Join([c], lines);
      assert [lines[0]] + lines[1..][..|lines| - 2] == lines[..|lines| - 1];
    }
  }

  /** The text before the first dot is the only dot-free prefix that is
      followed by a dot or by nothing. */
  lemma FirstSegmentUnique(p: string, q: string)
    requires q <= p && '.' !in q
    requires |q| == |p| || p[|q|] == '.'
    ensures FirstSegment(p) == q
  {
    var s := FirstSegment(p);
    assert forall k :: 0 <= k < |q| ==> p[k] == q[k] && p[k] != '.';
    assert forall k :: 0 <= k < |s| ==> p[k] == s[k] && p[k] != '.';
    assert |s| == |q|;
    assert s == p[..|s|] && q == p[..|q|];
  }
}
