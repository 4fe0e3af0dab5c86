/**
 The three JavaScript string built-ins the line-item key is made of:
 `String.prototype.trim`, `Array.prototype.filter(Boolean)` on strings,
 and `Array.prototype.join` with a one-character separator.
 */
module Text {

  /** The code points `trim` removes: ECMAScript's WhiteSpace (tab, vertical tab,
      form feed, the byte order mark and every space separator) and LineTerminator
      (line feed, carriage return, line and paragraph separator). */
  predicate IsWhitespace(c: char) {
    var n := c as int;
    n == 0x09 || n == 0x0A || n == 0x0B || n == 0x0C || n == 0x0D || n == 0x20 ||
    n == 0xA0 || n == 0x1680 || (0x2000 <= n <= 0x200A) || n == 0x2028 || n == 0x2029 ||
    n == 0x202F || n == 0x205F || n == 0x3000 || n == 0xFEFF
  }

  predicate AllWhitespace(s: string) {
    forall i :: 0 <= i < |s| ==> IsWhitespace(s[i])
  }

  /** Drops the leading whitespace: what is left is a suffix of `s`, everything
      dropped is whitespace, and what is left does not start with whitespace. */
  function TrimStart(s: string): (r: string)
    ensures |r| <= |s| && r == s[|s| - |r|..]
    ensures r == [] || !IsWhitespace(r[0])
  {
    if s != [] && IsWhitespace(s[0]) then TrimStart(s[1..]) else s
  }

  lemma {:induction false} TrimStartDropsWhitespace(s: string)
    ensures AllWhitespace(s[..|s| - |TrimStart(s)|])
  {
    if s != [] && IsWhitespace(s[0]) {
      TrimStartDropsWhitespace(s[1..]);
      var k := |s| - |TrimStart(s)|;
      assert forall j :: 1 <= j < k ==> s[..k][j] == s[1..][..k - 1][j - 1];
    }
  }

  /** Drops the trailing whitespace, symmetrically. */
  function TrimEnd(s: string): (r: string)
    ensures |r| <= |s| && r == s[..|r|]
    ensures r == [] || !IsWhitespace(r[|r| - 1])
  {
    if s != [] && IsWhitespace(s[|s| - 1]) then TrimEnd(s[..|s| - 1]) else s
  }

  lemma {:induction false} TrimEndDropsWhitespace(s: string)
    ensures AllWhitespace(s[|TrimEnd(s)|..])
  {
    if s != [] && IsWhitespace(s[|s| - 1]) {
      TrimEndDropsWhitespace(s[..|s| - 1]);
      var k := |TrimEnd(s)|;
      assert forall j :: k <= j < |s| - 1 ==> s[j] == s[..|s| - 1][j];
    }
  }

  /** `s.trim()`: the result is the middle of `s` between a whitespace-only
      prefix and a whitespace-only suffix, and neither starts nor ends with
      whitespace. */
  function Trim(s: string): (r: string)
    ensures r == [] || (!IsWhitespace(r[0]) && !IsWhitespace(r[|r| - 1]))
  {
    TrimEnd(TrimStart(s))
  }

  /** What `Trim` drops is whitespace on both sides: `s` is a whitespace-only
      prefix, then `Trim(s)`, then a whitespace-only suffix. */
  lemma TrimIsMiddle(s: string)
    ensures exists i :: 0 <= i <= |s| - |Trim(s)| && Trim(s) == s[i..][..|Trim(s)|] &&
                        AllWhitespace(s[..i]) && AllWhitespace(s[i..][|Trim(s)|..])
  {
    var t := TrimStart(s);
    var i := |s| - |t|;
    var r := Trim(s);
    assert s[i..] == t;
    TrimStartDropsWhitespace(s);
    TrimEndDropsWhitespace(t);
    assert r == t[..|r|];
    assert AllWhitespace(t[|r|..]);
    assert 0 <= i <= |s| - |r| && r == s[i..][..|r|] && AllWhitespace(s[..i]) && AllWhitespace(s[i..][|r|..]);
  }

  /** Trimming twice is trimming once. */
  lemma TrimIdempotent(s: string)
    ensures Trim(Trim(s)) == Trim(s)
  {
    var r := Trim(s);
    assert TrimStart(r) == r;
    assert TrimEnd(r) == r;
  }

  /** A text trims to the empty string exactly when it is all whitespace. */
  lemma TrimEmptyIffBlank(s: string)
    ensures Trim(s) == [] <==> AllWhitespace(s)
  {
    var t := TrimStart(s);
    TrimStartDropsWhitespace(s);
    TrimEndDropsWhitespace(t);
    if t == [] {
      assert s[..|s|] == s;
    } else {
      var r := TrimEnd(t);
      assert t[0] == s[|s| - |t|];
    }
  }

  /** `parts.filter(Boolean)`: keeps exactly the non-empty strings, each as often
      as it occurs in `parts`. */
  function NonEmptyParts(parts: seq<string>): (r: seq<string>)
    ensures |r| <= |parts|
    ensures forall i :: 0 <= i < |r| ==> r[i] != []
  {
    if parts == [] then []
    else (if parts[0] == [] then [] else [parts[0]]) + NonEmptyParts(parts[1..])
  }

  /** Filtering keeps every non-empty string as often as it occurs. */
  lemma {:induction false} NonEmptyPartsCounts(parts: seq<string>, x: string)
    requires x != []
    ensures multiset(NonEmptyParts(parts))[x] == multiset(parts)[x]
  {
    if parts != [] {
      assert parts == [parts[0]] + parts[1..];
      NonEmptyPartsCounts(parts[1..], x);
    }
  }

  /** Filtering keeps the order: it distributes over concatenation. */
  lemma {:induction false} NonEmptyPartsAppend(a: seq<string>, b: seq<string>)
    ensures NonEmptyParts(a + b) == NonEmptyParts(a) + NonEmptyParts(b)
  {
    if a == [] {
      assert a + b == b;
    } else {
      assert (a + b)[1..] == a[1..] + b;
      NonEmptyPartsAppend(a[1..], b);
    }
  }

  function TotalLength(parts: seq<string>): nat {
    if parts == [] then 0 else |parts[0]| + TotalLength(parts[1..])
  }

  /** `parts.join(sep)`: the parts with one separator between each neighbouring pair. */
  function Join(parts: seq<string>, sep: char): (r: string)
    ensures parts == [] ==> r == []
    ensures parts != [] ==> |r| == TotalLength(parts) + |parts| - 1
  {
    if parts == [] then []
    else if |parts| == 1 then parts[0]
    else parts[0] + [sep] + Join(parts[1..], sep)
  }

  /** Every part with a separator in front of it: the tail of a join. */
  function Prefixed(parts: seq<string>, sep: char): (r: string)
    ensures |r| == TotalLength(parts) + |parts|
  {
    if parts == [] then [] else [sep] + parts[0] + Prefixed(parts[1..], sep)
  }

  /** A join is its first part followed by every other part behind a separator. */
  lemma {:induction false} JoinCons(p: string, rest: seq<string>, sep: char)
    ensures Join([p] + rest, sep) == p + Prefixed(rest, sep)
    decreases |rest|
  {
    if rest == [] {
    } else {
      assert ([p] + rest)[1..] == [rest[0]] + rest[1..];
      JoinCons(rest[0], rest[1..], sep);
    }
  }

  lemma {:induction false} PrefixedAppend(a: seq<string>, b: seq<string>, sep: char)
    ensures Prefixed(a + b, sep) == Prefixed(a, sep) + Prefixed(b, sep)
  {
    if a == [] {
      assert a + b == b;
    } else {
      assert (a + b)[1..] == a[1..] + b;
      PrefixedAppend(a[1..], b, sep);
    }
  }

  /** A separator and the part, or nothing for an empty part. */
  function PrefixedPart(x: string, sep: char): string {
    if x == [] then [] else [sep] + x
  }

  lemma {:induction false} PrefixedOfOne(x: string, sep: char)
    ensures Prefixed(NonEmptyParts([x]), sep) == PrefixedPart(x, sep)
  {
    if x != [] {
      assert NonEmptyParts([x]) == [x] + NonEmptyParts([]);
      assert [x][1..] == [];
    } else {
      assert [x][1..] == [];
    }
  }

  /** Filtering then prefixing a sequence is prefixing each part on its own. */
  lemma {:induction false} PrefixedFiltered(parts: seq<string>, sep: char)
    ensures Prefixed(NonEmptyParts(parts), sep) ==
            if parts == [] then [] else PrefixedPart(parts[0], sep) + Prefixed(NonEmptyParts(parts[1..]), sep)
  {
    if parts != [] {
      var head := if parts[0] == [] then [] else [parts[0]];
      assert NonEmptyParts(parts) == head + NonEmptyParts(parts[1..]);
      PrefixedAppend(head, NonEmptyParts(parts[1..]), sep);
      if parts[0] != [] {
        assert head[1..] == [];
      }
    }
  }

  /** Four parts filtered and put each behind a separator: each non-empty
      part behind a separator, in order. */
  lemma PrefixedFilteredFour(a: string, b: string, c: string, d: string, sep: char)
    ensures Prefixed(NonEmptyParts([a] + ([b] + ([c] + [d]))), sep) ==
            PrefixedPart(a, sep) + (PrefixedPart(b, sep) + (PrefixedPart(c, sep) + PrefixedPart(d, sep)))
  {
    var p := [a] + ([b] + ([c] + [d]));
    PrefixedFiltered(p, sep);
    assert p[1..] == [b] + ([c] + [d]);
    PrefixedFiltered([b] + ([c] + [d]), sep);
    assert ([b] + ([c] + [d]))[1..] == [c] + [d];
    PrefixedFiltered([c] + [d], sep);
    assert ([c] + [d])[1..] == [d];
    PrefixedOfOne(d, sep);
  }

  /** Filtering `[first, second, ...middle, last]` when `second` is not empty. */
  lemma FilteredShape(first: string, second: string, middle: seq<string>, last: string)
    requires second != []
    ensures NonEmptyParts([first] + ([second] + (middle + [last]))) ==
            NonEmptyParts([first]) + ([second] + (NonEmptyParts(middle) + NonEmptyParts([last])))
  {
    NonEmptyPartsAppend([first], [second] + (middle + [last]));
    NonEmptyPartsAppend([second], middle + [last]);
    assert NonEmptyParts([second]) == [second] + NonEmptyParts([]);
    NonEmptyPartsAppend(middle, [last]);
  }

  lemma JoinAfterFirst(first: string, second: string, rest: seq<string>, sep: char)
    ensures Join(NonEmptyParts([first]) + ([second] + rest), sep) ==
            (if first == [] then [] else first + [sep]) + second + Prefixed(rest, sep)
  {
    JoinCons(second, rest, sep);
    if first == [] {
      assert NonEmptyParts([first]) == [];
      assert NonEmptyParts([first]) + ([second] + rest) == [second] + rest;
    } else {
      assert NonEmptyParts([first]) == [first] + NonEmptyParts([]);
      JoinCons(first, [second] + rest, sep);
      assert ([second] + rest)[1..] == rest;
    }
  }

  /** The join of the filtered parts `[first, second, ...middle, last]` when
      `second` is not empty: `first` and a separator unless `first` is empty,
      then `second`, then every non-empty part after it behind a separator. */
  lemma JoinFilteredShape(first: string, second: string, middle: seq<string>, last: string, sep: char)
    requires second != []
    ensures Join(NonEmptyParts([first] + ([second] + (middle + [last]))), sep) ==
            (if first == [] then [] else first + [sep]) + second +
            (Prefixed(NonEmptyParts(middle), sep) + PrefixedPart(last, sep))
  {
    var m, l := NonEmptyParts(middle), NonEmptyParts([last]);
    FilteredShape(first, second, middle, last);
    JoinAfterFirst(first, second, m + l, sep);
    PrefixedAppend(m, l, sep);
    PrefixedOfOne(last, sep);
  }

  lemma ConcatAssoc(a: string, b: string, c: string)
    ensures (a + b) + c == a + (b + c)
  {
  }

  /** If `a + c == b + c` then `a == b`. */
  lemma CancelSuffix(a: string, b: string, c: string)
    requires a + c == b + c
    ensures a == b
  {
    assert |a| == |b|;
    assert a == (a + c)[..|a|];
    assert b == (b + c)[..|b|];
  }

  /** If `c + a == c + b` then `a == b`. */
  lemma CancelPrefix(c: string, a: string, b: string)
    requires c + a == c + b
    ensures a == b
  {
    assert a == (c + a)[|c|..];
    assert b == (c + b)[|c|..];
  }
}
