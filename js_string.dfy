/** The string operations the tag editors rely on: `String.prototype.trim`,
    `split` on a one-character separator and `Array.prototype.join`. */
module JsString {

  import opened Seqs

  /** The characters `trim` removes: the ECMAScript WhiteSpace and LineTerminator code
      points (tab, vertical tab, form feed, space, no-break space, byte order mark, the
      space separators of Unicode category Zs, line feed, carriage return, line and
      paragraph separators). */
  predicate IsWhitespace(c: char)
  {
    c == '\U{0009}' || c == '\U{000B}' || c == '\U{000C}' || c == ' ' || c == '\U{00A0}' ||
    c == '\U{FEFF}' || c == '\U{1680}' || ('\U{2000}' <= c <= '\U{200A}') || c == '\U{202F}' ||
    c == '\U{205F}' || c == '\U{3000}' ||
    c == '\U{000A}' || c == '\U{000D}' || c == '\U{2028}' || c == '\U{2029}'
  }

  predicate AllWhitespace(s: string)
  {
    forall i :: 0 <= i < |s| ==> IsWhitespace(s[i])
  }

  /** Neither starts nor ends with whitespace. */
  predicate IsTrimmed(s: string)
  {
    s == [] || (!IsWhitespace(s[0]) && !IsWhitespace(s[|s| - 1]))
  }

  /** Number of whitespace characters `s` starts with. */
  function Leading(s: string): (n: nat)
    ensures n <= |s|
    ensures forall k :: 0 <= k < n ==> IsWhitespace(s[k])
    ensures n < |s| ==> !IsWhitespace(s[n])
    decreases |s|
  {
    if s != [] && IsWhitespace(s[0]) then 1 + Leading(s[1..]) else 0
  }

  /** Number of whitespace characters `s` ends with. */
  function Trailing(s: string): (n: nat)
    ensures n <= |s|
    ensures forall k :: |s| - n <= k < |s| ==> IsWhitespace(s[k])
    ensures n < |s| ==> !IsWhitespace(s[|s| - 1 - n])
    decreases |s|
  {
    if s != [] && IsWhitespace(s[|s| - 1]) then 1 + Trailing(s[..|s| - 1]) else 0
  }

  /** `trim`: the part of `s` between its leading and its trailing whitespace, empty
      when `s` is all whitespace. */
  function Trim(s: string): (r: string)
    ensures IsTrimmed(r)
    ensures r == [] <==> AllWhitespace(s)
    ensures r != [] ==> r == s[Leading(s)..|s| - Trailing(s)]
  {
    var lead := Leading(s);
    if lead == |s| then []
    else
      assert Leading(s) < |s| - Trailing(s);
      s[lead..|s| - Trailing(s)]
  }

  /** What `trim` cuts from the front and from the back is whitespace only. */
  lemma TrimCutsWhitespace(s: string)
    ensures AllWhitespace(s[..Leading(s)]) && AllWhitespace(s[|s| - Trailing(s)..])
  {
    var a, b := Leading(s), |s| - Trailing(s);
    var front, back := s[..a], s[b..];
    forall k | 0 <= k < |front| ensures IsWhitespace(front[k]) {
      assert front[k] == s[k] && k < a;
    }
    forall k | 0 <= k < |back| ensures IsWhitespace(back[k]) {
      assert back[k] == s[b + k] && b <= b + k < |s|;
    }
  }

  /** Trimming a trimmed string changes nothing. */
  lemma TrimTrimmed(s: string)
    requires IsTrimmed(s)
    ensures Trim(s) == s
  {
  }

  /** Trimming twice trims once. */
  lemma TrimIdempotent(s: string)
    ensures Trim(Trim(s)) == Trim(s)
  {
    TrimTrimmed(Trim(s));
  }

  /** Leading whitespace before a trimmed string is all `trim` removes. */
  lemma TrimAfterWhitespace(w: string, t: string)
    requires AllWhitespace(w) && IsTrimmed(t) && t != []
    ensures Trim(w + t) == t
  {
    var s := w + t;
    LeadingBeforeText(w, t);
    assert s[|s| - 1] == t[|t| - 1];
    assert Trailing(s) == 0;
    assert s[|w|] == t[0];
    assert s[|w|..|s|] == t;
  }

  /** Whitespace in front of a string that does not start with whitespace is exactly
      what `Leading` counts. */
  lemma {:induction false} LeadingBeforeText(w: string, t: string)
    requires AllWhitespace(w) && t != [] && !IsWhitespace(t[0])
    ensures Leading(w + t) == |w|
    decreases |w|
  {
    if w != [] {
      assert (w + t)[1..] == w[1..] + t;
      LeadingBeforeText(w[1..], t);
    } else {
      assert w + t == t;
    }
  }

  /** `s.split(sep)` for a one-character separator: the pieces between separators, so
      one more piece than there are separators, and `[""]` for the empty string. */
  function Split(s: string, sep: char): (r: seq<string>)
    ensures |r| >= 1
    ensures forall k :: 0 <= k < |r| ==> sep !in r[k]
    decreases |s|
  {
    if s == [] then [[]]
    else
      var rest := Split(s[1..], sep);
      if s[0] == sep then [[]] + rest
      else [[s[0]] + rest[0]] + rest[1..]
  }

  /** `parts.join(delim)`: the parts with one delimiter between each two of them. */
  function Join(parts: seq<string>, delim: string): (r: string)
    ensures |parts| >= 1 ==> |r| == Sum(Length, parts) + (|parts| - 1) * |delim|
    ensures |parts| >= 1 ==> |parts[0]| <= |r| && r[..|parts[0]|] == parts[0]
    decreases |parts|
  {
    if parts == [] then []
    else if |parts| == 1 then parts[0]
    else parts[0] + delim + Join(parts[1..], delim)
  }

  function Length(s: string): int
  {
    |s|
  }

  /** Joining the pieces back with the separator rebuilds the string. */
  lemma {:induction false} JoinSplit(s: string, sep: char)
    ensures Join(Split(s, sep), [sep]) == s
    decreases |s|
  {
    if s != [] {
      JoinSplit(s[1..], sep);
      var rest := Split(s[1..], sep);
      if s[0] == sep {
        assert s == [sep] + s[1..];
      } else {
        if |rest| == 1 {
          assert s == [s[0]] + rest[0];
        } else {
          var r := Split(s, sep);
          assert r[1..] == rest[1..];
          assert Join(rest, [sep]) == rest[0] + [sep] + Join(rest[1..], [sep]);
          assert s == [s[0]] + s[1..];
        }
      }
    }
  }

  /** Splitting pieces joined with a separator they do not contain gives back the pieces. */
  lemma {:induction false} SplitJoin(parts: seq<string>, sep: char)
    requires |parts| >= 1
    requires forall k :: 0 <= k < |parts| ==> sep !in parts[k]
    ensures Split(Join(parts, [sep]), sep) == parts
    decreases |parts|
  {
    if |parts| == 1 {
      SplitNoSeparator(parts[0], sep);
    } else {
      SplitJoin(parts[1..], sep);
      SplitPrefix(parts[0], sep, Join(parts[1..], [sep]));
      assert parts == [parts[0]] + parts[1..];
    }
  }

  lemma {:induction false} SplitNoSeparator(s: string, sep: char)
    requires sep !in s
    ensures Split(s, sep) == [s]
    decreases |s|
  {
    if s != [] {
      SplitNoSeparator(s[1..], sep);
      assert s == [s[0]] + s[1..];
    }
  }

  /** A separator-free prefix followed by a separator becomes the first piece. */
  lemma {:induction false} SplitPrefix(p: string, sep: char, rest: string)
    requires sep !in p
    ensures Split(p + [sep] + rest, sep) == [p] + Split(rest, sep)
    decreases |p|
  {
    if p == [] {
      assert p + [sep] + rest == [sep] + rest;
      assert ([sep] + rest)[1..] == rest;
    } else {
      assert (p + [sep] + rest)[1..] == p[1..] + [sep] + rest;
      SplitPrefix(p[1..], sep, rest);
      assert p == [p[0]] + p[1..];
    }
  }
}
