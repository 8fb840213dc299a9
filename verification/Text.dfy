/**
 The parts of Go's `strings` package the gateway's parsers and printers are made of. A string is a
 sequence of code points; bytes that are not valid UTF-8 are not part of this model.

 - `TrimSpace`, and what it leaves of a padded text;
 - `Split` and `Join`, inverse to each other on texts without the separator;
 - `Cut`, at the first occurrence and nowhere else.
 */
module Text {

  /** unicode.IsSpace. */
  predicate IsSpace(c: char) {
    '\t' <= c <= '\r' || c == ' ' || c == '\U{85}' || c == '\U{A0}' || c == '\U{1680}' || '\U{2000}' <= c <= '\U{200A}' ||
    c == '\U{2028}' || c == '\U{2029}' || c == '\U{202F}' || c == '\U{205F}' || c == '\U{3000}'
  }

  function TrimLeft(s: string): (r: string)
    ensures r == "" || !IsSpace(r[0])
  {
    if s != "" && IsSpace(s[0]) then TrimLeft(s[1..]) else s
  }

  function TrimRight(s: string): (r: string)
    ensures r == "" || !IsSpace(r[|r| - 1])
  {
    if s != "" && IsSpace(s[|s| - 1]) then TrimRight(s[..|s| - 1]) else s
  }

  /** strings.TrimSpace. */
  function TrimSpace(s: string): (r: string)
    ensures Trimmed(r)
  {
    TrimRightPrefix(TrimLeft(s));
    TrimRight(TrimLeft(s))
  }

  predicate Trimmed(s: string) {
    s == "" || (!IsSpace(s[0]) && !IsSpace(s[|s| - 1]))
  }

  /** s is `lower` up to the case of its letters; `upper` spells the same word in capitals. */
  predicate AnyCase(s: string, lower: string, upper: string)
    requires |lower| == |upper|
  {
    |s| == |lower| && forall i :: 0 <= i < |s| ==> s[i] == lower[i] || s[i] == upper[i]
  }

  ghost predicate Infix(r: string, s: string) {
    exists i :: 0 <= i <= |s| - |r| && r == s[i..][..|r|]
  }

  lemma {:induction false} TrimLeftSuffix(s: string)
    ensures var r := TrimLeft(s); |r| <= |s| && r == s[|s| - |r|..]
  {
    if s != "" && IsSpace(s[0]) {
      TrimLeftSuffix(s[1..]);
    }
  }

  lemma {:induction false} TrimRightPrefix(s: string)
    ensures TrimRight(s) <= s
  {
    if s != "" && IsSpace(s[|s| - 1]) {
      TrimRightPrefix(s[..|s| - 1]);
    }
  }

  lemma TrimIsInfix(s: string)
    ensures Infix(TrimSpace(s), s)
  {
    hide TrimLeft, TrimRight, IsSpace;
    var t := TrimLeft(s);
    var r := TrimRight(t);
    TrimLeftSuffix(s);
    TrimRightPrefix(t);
    assert r == s[|s| - |t|..][..|r|];
  }

  lemma {:induction false} TrimLeftPadded(a: string, t: string)
    requires forall c | c in a :: IsSpace(c)
    requires t == "" || !IsSpace(t[0])
    ensures TrimLeft(a + t) == t
  {
    if a == "" {
      assert a + t == t;
    } else {
      assert a[0] in a && (a + t)[1..] == a[1..] + t;
      TrimLeftPadded(a[1..], t);
    }
  }

  lemma {:induction false} TrimRightPadded(t: string, b: string)
    requires forall c | c in b :: IsSpace(c)
    requires t == "" || !IsSpace(t[|t| - 1])
    ensures TrimRight(t + b) == t
  {
    if b == "" {
      assert t + b == t;
    } else {
      var n := |b| - 1;
      assert b[n] in b && (t + b)[..|t + b| - 1] == t + b[..n];
      TrimRightPadded(t, b[..n]);
    }
  }

  /** Trimming recovers a trimmed text from any spaces around it. */
  lemma TrimPadded(a: string, s: string, b: string)
    requires Trimmed(s)
    requires (forall c | c in a :: IsSpace(c)) && (forall c | c in b :: IsSpace(c))
    ensures TrimSpace(a + s + b) == s
  {
    if s == "" {
      assert a + s + b == (a + b) + "";
      assert forall c | c in a + b :: c in a || c in b;
      TrimLeftPadded(a + b, "");
    } else {
      assert a + s + b == a + (s + b);
      TrimLeftPadded(a, s + b);
      TrimRightPadded(s, b);
    }
  }

  lemma TrimTrimmed(s: string)
    requires Trimmed(s)
    ensures TrimSpace(s) == s
  {
    TrimPadded("", s, "");
    assert "" + s + "" == s;
  }

  /** strings.Split with a one-character separator. */
  function Split(s: string, sep: char): seq<string> {
    if s == "" then [""]
    else if s[0] == sep then [""] + Split(s[1..], sep)
    else Prepend(s[0], Split(s[1..], sep))
  }

  /** c in front of the first piece. */
  function Prepend(c: char, pieces: seq<string>): seq<string> {
    if pieces == [] then [[c]] else [[c] + pieces[0]] + pieces[1..]
  }

  lemma {:induction false} SplitNonEmpty(s: string, sep: char)
    ensures Split(s, sep) != []
  {
    if s != "" {
      SplitNonEmpty(s[1..], sep);
    }
  }

  lemma {:induction false} SplitLacksSep(s: string, sep: char)
    ensures forall l | l in Split(s, sep) :: sep !in l
  {
    if s != "" {
      SplitLacksSep(s[1..], sep);
      var rest := Split(s[1..], sep);
      assert rest[0] in rest && forall l | l in rest[1..] :: l in rest;
    }
  }

  lemma {:induction false} SplitLacks(s: string, sep: char, c: char)
    requires c !in s
    ensures forall l | l in Split(s, sep) :: c !in l
  {
    if s != "" {
      SplitLacks(s[1..], sep, c);
      assert Split(s[1..], sep)[0] in Split(s[1..], sep);
    }
  }

  /** strings.Join with a one-character separator. */
  function Join(ls: seq<string>, sep: char): string {
    if ls == [] then ""
    else if |ls| == 1 then ls[0]
    else ls[0] + [sep] + Join(ls[1..], sep)
  }

  lemma {:induction false} SplitPlain(a: string, sep: char)
    requires sep !in a
    ensures Split(a, sep) == [a]
  {
    if a != "" {
      SplitPlain(a[1..], sep);
      assert [a[0]] + a[1..] == a;
    }
  }

  lemma {:induction false} SplitFirst(a: string, b: string, sep: char)
    requires sep !in a
    ensures Split(a + [sep] + b, sep) == [a] + Split(b, sep)
  {
    var s := a + [sep] + b;
    if a == "" {
      assert s[1..] == b;
    } else {
      assert s[1..] == a[1..] + [sep] + b;
      SplitFirst(a[1..], b, sep);
      assert [a[0]] + a[1..] == a;
    }
  }

  lemma {:induction false} SplitJoin(ls: seq<string>, sep: char)
    requires ls != [] && forall l | l in ls :: sep !in l
    ensures Split(Join(ls, sep), sep) == ls
  {
    if |ls| == 1 {
      assert ls[0] in ls;
      SplitPlain(ls[0], sep);
    } else {
      assert ls[0] in ls && forall l | l in ls[1..] :: l in ls;
      SplitJoin(ls[1..], sep);
      SplitFirst(ls[0], Join(ls[1..], sep), sep);
    }
  }

  lemma {:induction false} JoinSplit(s: string, sep: char)
    ensures Join(Split(s, sep), sep) == s
  {
    if s != "" {
      JoinSplit(s[1..], sep);
      var rest := Split(s[1..], sep);
      if s[0] == sep {
        assert ([""] + rest)[1..] == rest;
        assert s == "" + [sep] + s[1..];
      } else {
        var r := [[s[0]] + rest[0]] + rest[1..];
        assert r[1..] == rest[1..];
        assert s == [s[0]] + s[1..];
        if |rest| > 1 {
          assert Join(r, sep) == ([s[0]] + rest[0]) + [sep] + Join(rest[1..], sep);
          assert Join(rest, sep) == rest[0] + [sep] + Join(rest[1..], sep);
        }
      }
    }
  }

  /** strings.Cut: what stands before and after the first occurrence of sep. */
  datatype CutResult = CutResult(before: string, after: string, found: bool)

  function Cut(s: string, sep: string): (r: CutResult)
    requires sep != ""
    ensures |r.before| + |r.after| <= |s|
  {
    if sep <= s then CutResult("", s[|sep|..], true)
    else if s == "" then CutResult("", "", false)
    else
      var r := Cut(s[1..], sep);
      CutResult([s[0]] + r.before, r.after, r.found)
  }

  predicate Contains(s: string, sep: string)
    requires sep != ""
  {
    exists i :: 0 <= i <= |s| && sep <= s[i..]
  }

  /** The parts of a cut make up the text. */
  lemma {:induction false} CutParts(s: string, sep: string)
    requires sep != ""
    ensures var r := Cut(s, sep);
            && (r.found ==> s == r.before + sep + r.after)
            && (!r.found ==> r.before == s && r.after == "")
            && r.before <= s
  {
    hide Cut;
    CutStep(s, sep);
    if !(sep <= s) && s != "" {
      CutParts(s[1..], sep);
      var r := Cut(s[1..], sep);
      assert s == [s[0]] + s[1..];
      assert [s[0]] + (r.before + sep + r.after) == [s[0]] + r.before + sep + r.after;
    }
  }

  lemma CutStep(s: string, sep: string)
    requires sep != ""
    ensures Cut(s, sep) ==
            if sep <= s then CutResult("", s[|sep|..], true)
            else if s == "" then CutResult("", "", false)
            else var r := Cut(s[1..], sep); CutResult([s[0]] + r.before, r.after, r.found)
  {
  }

  /** Nothing is cut at in what stands before the cut. */
  lemma {:induction false} CutBeforeLacks(s: string, sep: string)
    requires sep != ""
    ensures !Contains(Cut(s, sep).before, sep)
  {
    if !(sep <= s) && s != "" {
      CutBeforeLacks(s[1..], sep);
      CutParts(s[1..], sep);
      var b := Cut(s[1..], sep).before;
      hide Cut;
      var t := [s[0]] + b;
      forall i | 0 <= i <= |t|
        ensures !(sep <= t[i..])
      {
        if i > 0 {
          assert t[i..] == b[i - 1..];
        } else {
          assert t[i..] <= s;
        }
      }
    }
  }

  /** Cutting finds exactly the first occurrence: a `before` that cannot contribute to an earlier one
      comes back whole, and so does everything after it. */
  lemma {:induction false} CutAt(before: string, sep: string, after: string)
    requires sep != ""
    requires forall i :: 0 <= i < |before| ==> !(sep <= (before + sep + after)[i..])
    ensures Cut(before + sep + after, sep) == CutResult(before, after, true)
  {
    var s := before + sep + after;
    if before == "" {
      assert s == sep + after;
    } else {
      assert s[0..] == s;
      assert s[1..] == before[1..] + sep + after;
      forall i | 0 <= i < |before| - 1
        ensures !(sep <= (before[1..] + sep + after)[i..])
      {
        assert s[1..][i..] == s[i + 1..];
      }
      CutAt(before[1..], sep, after);
      assert [before[0]] + before[1..] == before;
    }
  }

  lemma {:induction false} CutMissing(s: string, sep: string)
    requires sep != "" && !Contains(s, sep)
    ensures Cut(s, sep) == CutResult(s, "", false)
  {
    hide Cut;
    CutStep(s, sep);
    assert s[0..] == s;
    if s != "" {
      TailLacks(s, sep);
      hide Contains;
      CutMissing(s[1..], sep);
      assert [s[0]] + s[1..] == s;
    }
  }

  lemma TailLacks(s: string, sep: string)
    requires sep != "" && s != "" && !Contains(s, sep)
    ensures !Contains(s[1..], sep)
  {
    forall i | 0 <= i <= |s[1..]|
      ensures !(sep <= s[1..][i..])
    {
      assert s[1..][i..] == s[i + 1..];
    }
  }

  /** A one-character separator that `before` lacks. */
  lemma CutAtChar(before: string, sep: string, after: string)
    requires |sep| == 1 && sep[0] !in before
    ensures Cut(before + sep + after, sep) == CutResult(before, after, true)
  {
    hide Cut;
    forall i | 0 <= i < |before|
      ensures !(sep <= (before + sep + after)[i..])
    {
      assert (before + sep + after)[i..][0] == before[i];
    }
    CutAt(before, sep, after);
  }

  lemma ContainsChar(s: string, sep: string)
    requires |sep| == 1
    ensures Contains(s, sep) <==> sep[0] in s
  {
    if sep[0] in s {
      var i :| 0 <= i < |s| && s[i] == sep[0];
      assert sep <= s[i..];
    }
    if Contains(s, sep) {
      var i :| 0 <= i <= |s| && sep <= s[i..];
      assert s[i] == s[i..][0] == sep[0];
    }
  }

  lemma {:induction false} SplitConcat(a: string, b: string, sep: char)
    ensures Split(a + [sep] + b, sep) == Split(a, sep) + Split(b, sep)
  {
    var s := a + [sep] + b;
    if a == "" {
      assert s[0] == sep && s[1..] == b;
    } else {
      assert s[0] == a[0] && s[1..] == a[1..] + [sep] + b;
      SplitConcat(a[1..], b, sep);
      SplitNonEmpty(a[1..], sep);
    }
  }

  lemma FirstOfSplit(s: string, sep: char)
    ensures var p := Split(s, sep)[0]; p <= s && (p == "" ==> s == "" || s[0] == sep)
  {
  }

  lemma {:induction false} SplitParts(s: string, sep: char, p: string, c: char)
    requires p in Split(s, sep) && c !in s
    ensures c !in p
  {
    if s != "" {
      var rest := Split(s[1..], sep);
      if s[0] == sep {
        if p != "" {
          assert p in rest;
          SplitParts(s[1..], sep, p, c);
        }
      } else {
        SplitParts(s[1..], sep, rest[0], c);
        if p in rest[1..] {
          SplitParts(s[1..], sep, p, c);
        }
      }
    }
  }

  /** Two split texts glued together: only the piece at the seam is torn. */
  function Glue(a: seq<string>, b: seq<string>): seq<string>
    requires a != [] && b != []
  {
    a[..|a| - 1] + [a[|a| - 1] + b[0]] + b[1..]
  }

  lemma {:induction false} SplitAcross(u: string, rest: string, sep: char)
    ensures Split(u + rest, sep) == Glue(Split(u, sep), Split(rest, sep))
  {
    var b := Split(rest, sep);
    if u == "" {
      assert u + rest == rest;
      assert "" + b[0] == b[0];
    } else {
      assert (u + rest)[1..] == u[1..] + rest && (u + rest)[0] == u[0];
      SplitAcross(u[1..], rest, sep);
      if u[0] == sep {
        GlueCons("", Split(u[1..], sep), b);
      } else {
        GlueHead(u[0], Split(u[1..], sep), b);
      }
    }
  }

  lemma GlueCons(h: string, a: seq<string>, b: seq<string>)
    requires a != [] && b != []
    ensures Glue([h] + a, b) == [h] + Glue(a, b)
  {
  }

  lemma GlueHead(c: char, a: seq<string>, b: seq<string>)
    requires a != [] && b != []
    ensures Glue([[c] + a[0]] + a[1..], b) == [[c] + Glue(a, b)[0]] + Glue(a, b)[1..]
  {
    if |a| == 1 {
      assert [c] + (a[0] + b[0]) == ([c] + a[0]) + b[0];
    }
  }

  lemma InfixLacks(r: string, s: string, c: char)
    requires Infix(r, s) && c !in s
    ensures c !in r
  {
    var i :| 0 <= i <= |s| - |r| && r == s[i..][..|r|];
    forall k | 0 <= k < |r|
      ensures r[k] != c
    {
      assert r[k] == s[i + k] && s[i + k] in s;
    }
  }

  lemma InfixLacksText(r: string, s: string, sep: string)
    requires sep != "" && Infix(r, s) && !Contains(s, sep)
    ensures !Contains(r, sep)
  {
    var i :| 0 <= i <= |s| - |r| && r == s[i..][..|r|];
    forall k | 0 <= k <= |r|
      ensures !(sep <= r[k..])
    {
      assert r[k..] == s[i + k..][..|r| - k];
      assert !(sep <= s[i + k..]);
    }
  }

  lemma DropTail(a: string, b: string, tail: string)
    ensures a + tail == b + tail ==> a == b
  {
    if a + tail == b + tail {
      assert a == (a + tail)[..|a|] && b == (b + tail)[..|b|];
    }
  }

  /** The last space of a text separates it in one way. */
  lemma LastSpace(x: string, d: string, y: string, e: string)
    requires x + " " + d == y + " " + e && ' ' !in d && ' ' !in e
    ensures x == y && d == e
  {
    NoSpaceBehind(x, d);
    NoSpaceBehind(y, e);
    var s := x + " " + d;
    assert s[|x|] == ' ' && s[|y|] == ' ' && |x| == |y|;
    assert x == s[..|x|] == y && d == s[|x| + 1..] == e;
  }

  lemma NoSpaceBehind(x: string, d: string)
    ensures var s := x + " " + d; ' ' !in d ==> forall i :: |x| < i < |s| ==> s[i] != ' '
  {
    var s := x + " " + d;
    forall i | ' ' !in d && |x| < i < |s|
      ensures s[i] != ' '
    {
      assert s[i] == d[i - |x| - 1];
    }
  }
}
