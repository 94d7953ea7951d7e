/** String helpers used by the translator: `str.join`, ASCII `str.upper`, and
    splitting at the first occurrence of a separator. */
module Text {
  import opened Wrappers

  /** The summed lengths of `parts`. */
  function TotalLength(parts: seq<string>): nat {
    if parts == [] then 0 else |parts[0]| + TotalLength(parts[1..])
  }

  /** `sep.join(parts)`: the parts with `sep` between consecutive ones. Nothing is
      lost or added: the result is as long as the parts plus one `sep` per gap, and
      it begins with the first part. */
  function Join(parts: seq<string>, sep: string): (r: string)
    ensures |parts| == 0 ==> r == ""
    ensures |parts| > 0 ==> |r| == TotalLength(parts) + (|parts| - 1) * |sep|
    ensures |parts| > 0 ==> parts[0] <= r
    decreases |parts|
  {
    if |parts| == 0 then ""
    else if |parts| == 1 then parts[0]
    else parts[0] + sep + Join(parts[1..], sep)
  }

  /** Joining one more part appends a separator and that part: the parts appear in
      order, each pair separated by exactly one `sep`. */
  lemma {:induction false} JoinSnoc(parts: seq<string>, p: string, sep: string)
    requires |parts| > 0
    ensures Join(parts + [p], sep) == Join(parts, sep) + sep + p
    decreases |parts|
  {
    if |parts| == 1 {
      assert parts + [p] == [parts[0], p];
      assert Join([p], sep) == p;
    } else {
      assert (parts + [p])[1..] == parts[1..] + [p];
      JoinSnoc(parts[1..], p, sep);
    }
  }

  predicate IsLowerAscii(c: char) {
    'a' <= c <= 'z'
  }

  /** Upper-casing of one character, restricted to ASCII letters. */
  function UpperChar(c: char): (u: char)
    ensures !IsLowerAscii(u)
    ensures u == c <==> !IsLowerAscii(c)
    ensures IsLowerAscii(c) ==> u as int == c as int - ('a' as int - 'A' as int)
  {
    if IsLowerAscii(c) then (c as int - ('a' as int - 'A' as int)) as char else c
  }

  /** `s.upper()` on ASCII text: every lower-case letter replaced by its capital,
      everything else kept in place. */
  function Upper(s: string): (r: string)
    ensures |r| == |s|
    ensures forall i :: 0 <= i < |s| ==> r[i] == UpperChar(s[i])
  {
    if s == [] then [] else [UpperChar(s[0])] + Upper(s[1..])
  }

  /** Upper-casing twice is upper-casing once, and leaves no lower-case letter. */
  lemma UpperIdempotent(s: string)
    ensures Upper(Upper(s)) == Upper(s)
    ensures forall i :: 0 <= i < |s| ==> !IsLowerAscii(Upper(s)[i])
  {
  }

  /** Splits `s` at the first occurrence of `sep` into the text before it and the
      text after it; `None` when `sep` does not occur. */
  function SplitFirst(s: string, sep: char): (r: Option<(string, string)>)
    ensures r.Some? ==> s == r.value.0 + [sep] + r.value.1 && sep !in r.value.0
    ensures r.None? <==> sep !in s
  {
    if s == [] then None
    else if s[0] == sep then Some(([], s[1..]))
    else
      match SplitFirst(s[1..], sep)
      case None => None
      case Some(parts) => Some(([s[0]] + parts.0, parts.1))
  }

  /** Splitting a text built as `before + sep + after`, with no `sep` in `before`,
      recovers both pieces, whatever `after` holds. */
  lemma {:induction false} SplitFirstJoined(before: string, sep: char, after: string)
    requires sep !in before
    ensures SplitFirst(before + [sep] + after, sep) == Some((before, after))
  {
    var s := before + [sep] + after;
    if before == [] {
      assert s[0] == sep && s[1..] == after;
    } else {
      assert s[0] == before[0] && s[1..] == before[1..] + [sep] + after;
      SplitFirstJoined(before[1..], sep, after);
      assert [before[0]] + before[1..] == before;
    }
  }

  /** `s` with `prefix` removed from its front, or `None` when `s` does not start with it. */
  function StripPrefix(s: string, prefix: string): (r: Option<string>)
    ensures r.Some? <==> |prefix| <= |s| && s[..|prefix|] == prefix
    ensures r.Some? ==> s == prefix + r.value
  {
    if |prefix| <= |s| && s[..|prefix|] == prefix then Some(s[|prefix|..]) else None
  }
}
