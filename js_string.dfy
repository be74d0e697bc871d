/**
 * The few ECMAScript string built-ins the application relies on:
 * `String.prototype.trim`, `split` on a one-character separator,
 * `Array.prototype.slice` with clamped bounds, `join`, and the string
 * form of a possibly-undefined value inside a template literal.
 */
module JsString {
  import opened Wrappers

  /** ECMAScript WhiteSpace and LineTerminator code points: exactly what
      `trim` strips and what the regular-expression class `\s` matches. */
  predicate IsWhitespace(c: char) {
    || c == '\t' || c == '\n' || c == '\U{000B}' || c == '\U{000C}' || c == '\r'
    || c == ' ' || c == '\U{00A0}' || c == '\U{1680}'
    || ('\U{2000}' <= c <= '\U{200A}')
    || c == '\U{2028}' || c == '\U{2029}' || c == '\U{202F}' || c == '\U{205F}'
    || c == '\U{3000}' || c == '\U{FEFF}'
  }

  predicate AllWhitespace(s: string) {
    forall i | 0 <= i < |s| :: IsWhitespace(s[i])
  }

  /** Leading whitespace removed: the result is a suffix of `s`, what was
      dropped is whitespace, and the result does not start with whitespace. */
  function TrimStart(s: string): (r: string)
    ensures |r| <= |s| && r == s[|s| - |r|..]
    ensures AllWhitespace(s[..|s| - |r|])
    ensures r == [] || !IsWhitespace(r[0])
  {
    if |s| > 0 && IsWhitespace(s[0]) then
      var r := TrimStart(s[1..]);
      assert forall i | 1 <= i < |s| - |r| :: s[i] == s[1..][i - 1];
      r
    else s
  }

  /** Trailing whitespace removed: the result is a prefix of `s`, what was
      dropped is whitespace, and the result does not end with whitespace. */
  function TrimEnd(s: string): (r: string)
    ensures |r| <= |s| && r == s[..|r|]
    ensures AllWhitespace(s[|r|..])
    ensures r == [] || !IsWhitespace(r[|r| - 1])
  {
    if |s| > 0 && IsWhitespace(s[|s| - 1]) then TrimEnd(s[..|s| - 1]) else s
  }

  /** `s.trim()`. */
  function Trim(s: string): string {
    TrimEnd(TrimStart(s))
  }

  /** `s.trim()` is the empty string (falsy) exactly when every character
      of `s` is whitespace. */
  lemma TrimEmptyIffBlank(s: string)
    ensures Trim(s) == [] <==> AllWhitespace(s)
  {
    var t := TrimStart(s);
    if Trim(s) == [] {
      // the trimmed rest would start with a non-blank character
      assert t[0..] == t;
      assert t == [];
      assert s[..|s|] == s;
    }
  }

  /** A string of whitespace trims to nothing at its end. */
  lemma {:induction false} TrimEndAllBlank(s: string)
    requires AllWhitespace(s)
    ensures TrimEnd(s) == []
  {
    if s != [] {
      TrimEndAllBlank(s[..|s| - 1]);
    }
  }

  /** Leading whitespace of a string whose first non-blank part starts with
      a non-whitespace character is stripped up to that character. */
  lemma TrimStartBlankPrefix(w: string, x: string)
    requires AllWhitespace(w)
    requires x != [] && !IsWhitespace(x[0])
    ensures TrimStart(w + x) == x
  {
    if w != [] {
      assert (w + x)[1..] == w[1..] + x;
      TrimStartBlankPrefix(w[1..], x);
    } else {
      assert w + x == x;
    }
  }

  /** Trailing whitespace appended to a string is dropped by `TrimEnd`. */
  lemma {:induction false} TrimEndBlankSuffix(y: string, w: string)
    requires AllWhitespace(w)
    ensures TrimEnd(y + w) == TrimEnd(y)
  {
    if w != [] {
      var n := |w| - 1;
      assert (y + w)[..|y + w| - 1] == y + w[..n];
      TrimEndBlankSuffix(y, w[..n]);
    } else {
      assert y + w == y;
    }
  }

  /** A prefix ending in a non-whitespace character survives `TrimEnd`
      unchanged; only the tail is trimmed. */
  lemma {:induction false} TrimEndKeepsPrefix(x: string, y: string)
    requires x != [] && !IsWhitespace(x[|x| - 1])
    ensures TrimEnd(x + y) == x + TrimEnd(y)
  {
    if y == [] {
      assert x + y == x;
    } else if IsWhitespace(y[|y| - 1]) {
      var n := |y| - 1;
      assert (x + y)[..|x + y| - 1] == x + y[..n];
      TrimEndKeepsPrefix(x, y[..n]);
    } else {
      assert (x + y)[|x + y| - 1] == y[|y| - 1];
    }
  }

  /** Trimming blank padding around `first + middle + last + tail`, where
      `first` starts and `last` ends with a non-whitespace character, keeps
      the first three whole and trims only the end of `tail`. */
  lemma TrimPadded(lead: string, first: string, middle: string, last: string, tail: string, pad: string)
    requires AllWhitespace(lead) && AllWhitespace(pad)
    requires first != [] && !IsWhitespace(first[0])
    requires last != [] && !IsWhitespace(last[|last| - 1])
    ensures Trim(lead + first + middle + last + tail + pad) == first + middle + last + TrimEnd(tail)
  {
    var head := first + middle + last;
    var body := head + tail + pad;
    assert lead + first + middle + last + tail + pad == lead + body;
    assert body[0] == first[0];
    assert head[|head| - 1] == last[|last| - 1];
    TrimStartBlankPrefix(lead, body);
    TrimEndBlankSuffix(head + tail, pad);
    TrimEndKeepsPrefix(head, tail);
  }

  /** The text before the first occurrence of a separator is determined by
      the whole string. */
  lemma SeparatorDelimits(x1: string, r1: string, x2: string, r2: string, sep: char)
    requires sep !in x1 && sep !in x2
    requires x1 + [sep] + r1 == x2 + [sep] + r2
    ensures x1 == x2
  {
    var s := x1 + [sep] + r1;
    assert s[|x1|] == sep && s[|x2|] == sep;
    assert forall i | 0 <= i < |x1| :: s[i] == x1[i] != sep;
    assert forall i | 0 <= i < |x2| :: s[i] == x2[i] != sep;
    assert |x1| == |x2|;
    assert x1 == s[..|x1|] == x2;
  }

  /** Behind a common prefix, the text before a marker that starts with a
      character it does not contain is determined by the whole string. */
  lemma PrefixBeforeMarker(pre: string, x1: string, x2: string, marker: string, t1: string, t2: string)
    requires marker != [] && marker[0] !in x1 && marker[0] !in x2
    requires pre + x1 + marker + t1 == pre + x2 + marker + t2
    ensures x1 == x2
  {
    var sep := marker[0];
    var r1 := marker[1..] + t1;
    var r2 := marker[1..] + t2;
    assert marker == [sep] + marker[1..];
    var s1 := x1 + [sep] + r1;
    var s2 := x2 + [sep] + r2;
    assert pre + x1 + marker + t1 == pre + s1;
    assert pre + x2 + marker + t2 == pre + s2;
    assert s1 == (pre + s1)[|pre|..];
    assert s2 == (pre + s2)[|pre|..];
    SeparatorDelimits(x1, r1, x2, r2, sep);
  }

  /** `s.split(sep)` for a one-character separator: always at least one
      part, and no part contains the separator. */
  function Split(s: string, sep: char): (parts: seq<string>)
    ensures |parts| >= 1
    ensures forall i | 0 <= i < |parts| :: sep !in parts[i]
  {
    if s == [] then [""]
    else
      var rest := Split(s[1..], sep);
      if s[0] == sep then [""] + rest
      else [[s[0]] + rest[0]] + rest[1..]
  }

  /** `parts.join(sep)`; the join of no parts is the empty string. */
  function Join(parts: seq<string>, sep: char): string {
    if |parts| == 0 then ""
    else if |parts| == 1 then parts[0]
    else parts[0] + [sep] + Join(parts[1..], sep)
  }

  /** Joining the parts of a split gives back the original string. */
  lemma {:induction false} JoinSplit(s: string, sep: char)
    ensures Join(Split(s, sep), sep) == s
  {
    if s != [] {
      var rest := Split(s[1..], sep);
      JoinSplit(s[1..], sep);
      if s[0] == sep {
        assert ([""] + rest)[1..] == rest;
        assert s == [sep] + s[1..];
      } else {
        var parts := [[s[0]] + rest[0]] + rest[1..];
        if |rest| == 1 {
          assert s == [s[0]] + s[1..];
        } else {
          assert parts[1..] == rest[1..];
          assert Join(rest, sep) == rest[0] + [sep] + Join(rest[1..], sep);
          assert s == [s[0]] + s[1..];
        }
      }
    }
  }

  /** Splitting a join of separator-free parts gives back the parts. */
  lemma {:induction false} SplitJoin(parts: seq<string>, sep: char)
    requires |parts| >= 1
    requires forall i | 0 <= i < |parts| :: sep !in parts[i]
    ensures Split(Join(parts, sep), sep) == parts
  {
    if |parts| == 1 {
      SplitSeparatorFree(parts[0], sep);
    } else {
      SplitJoin(parts[1..], sep);
      SplitPrefix(parts[0], Join(parts[1..], sep), sep);
      assert [parts[0]] + parts[1..] == parts;
    }
  }

  /** A separator-free string splits into itself alone. */
  lemma {:induction false} SplitSeparatorFree(s: string, sep: char)
    requires sep !in s
    ensures Split(s, sep) == [s]
  {
    if s != [] {
      assert sep !in s[1..] by {
        forall i | 0 <= i < |s[1..]| ensures s[1..][i] != sep {
          assert s[1..][i] == s[i + 1];
        }
      }
      SplitSeparatorFree(s[1..], sep);
      assert [s[0]] + s[1..] == s;
    }
  }

  /** A separator-free head followed by the separator splits off as the
      first part. */
  lemma {:induction false} SplitPrefix(x: string, y: string, sep: char)
    requires sep !in x
    ensures Split(x + [sep] + y, sep) == [x] + Split(y, sep)
  {
    var s := x + [sep] + y;
    if x == [] {
      assert s[0] == sep && s[1..] == y;
    } else {
      assert sep !in x[1..] by {
        forall i | 0 <= i < |x[1..]| ensures x[1..][i] != sep {
          assert x[1..][i] == x[i + 1];
        }
      }
      assert s[1..] == x[1..] + [sep] + y;
      SplitPrefix(x[1..], y, sep);
      assert s[0] == x[0] && x[0] != sep;
      assert [x[0]] + x[1..] == x;
    }
  }

  /** The join of two non-empty lists of parts is the two joins with one
      separator between them. */
  lemma {:induction false} JoinConcat(a: seq<string>, b: seq<string>, sep: char)
    requires |a| >= 1 && |b| >= 1
    ensures Join(a + b, sep) == Join(a, sep) + [sep] + Join(b, sep)
  {
    if |a| == 1 {
      assert (a + b)[1..] == b;
    } else {
      assert (a + b)[1..] == a[1..] + b;
      JoinConcat(a[1..], b, sep);
    }
  }

  /** `xs.slice(lo, hi)` for non-negative bounds: both are clamped to the
      length, and an inverted range gives the empty list. */
  function Slice<T>(xs: seq<T>, lo: nat, hi: nat): (r: seq<T>)
    ensures |r| <= |xs|
    ensures lo <= hi <= |xs| ==> r == xs[lo..hi]
    ensures lo <= |xs| <= hi ==> r == xs[lo..]
    ensures |xs| <= lo || hi <= lo ==> r == []
  {
    var a := if lo < |xs| then lo else |xs|;
    var b := if hi < |xs| then hi else |xs|;
    if a <= b then xs[a..b] else []
  }

  /** `xs.slice(lo)` for a non-negative start. */
  function SliceFrom<T>(xs: seq<T>, lo: nat): (r: seq<T>)
    ensures |r| <= |xs|
    ensures lo <= |xs| ==> r == xs[lo..]
    ensures |xs| <= lo ==> r == []
  {
    if lo < |xs| then xs[lo..] else []
  }

  /** The text a possibly-undefined string contributes to a template
      literal or becomes as an object key: `undefined` prints as "undefined". */
  function Stringify(v: Option<string>): string {
    match v
    case Some(s) => s
    case None => "undefined"
  }
}
