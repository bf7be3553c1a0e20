/** The PHP string built-ins the Einvoice processor relies on, on byte strings
    written as `seq<char>`: `strrev`, `strpos` with a one-character needle,
    `trim` with a character list, `is_numeric` of a one-character string and
    `empty` of a string. */
module PhpRuntime {
  import opened Wrappers

  /** `trim`'s default character list: " \t\n\r\0\x0B". */
  const TrimDefault: set<char> := {' ', '\t', '\n', '\r', '\0', '\U{B}'}

  /** `is_numeric` of a one-character string holds exactly for '0'..'9':
      a sign, a dot or a lone whitespace character is not a number. */
  predicate IsDigit(c: char)
  {
    '0' <= c <= '9'
  }

  /** `empty` of a string: true for "" and for "0". */
  predicate IsEmpty(s: string)
  {
    s == "" || s == "0"
  }

  /** `strrev`. */
  function Reverse(s: string): (r: string)
    ensures |r| == |s|
    ensures forall i :: 0 <= i < |s| ==> r[i] == s[|s| - 1 - i]
  {
    if s == [] then [] else Reverse(s[1..]) + [s[0]]
  }

  /** `strpos($haystack, $needle, $from)` for a one-character needle and an
      offset within the string: the first position at or after `from` that
      holds `needle`, or `None` (PHP's `false`). */
  function Strpos(haystack: string, needle: char, from: nat): (r: Option<nat>)
    requires from <= |haystack|
    ensures r.Some? ==> from <= r.value < |haystack| && haystack[r.value] == needle
    ensures r.Some? ==> forall j :: from <= j < r.value ==> haystack[j] != needle
    ensures r.None? <==> forall j :: from <= j < |haystack| ==> haystack[j] != needle
    decreases |haystack| - from
  {
    if from == |haystack| then None
    else if haystack[from] == needle then Some(from)
    else Strpos(haystack, needle, from + 1)
  }

  /** `ltrim($s, $chars)`. */
  function TrimLeft(s: string, chars: set<char>): string
  {
    if s != [] && s[0] in chars then TrimLeft(s[1..], chars) else s
  }

  /** `rtrim($s, $chars)`. */
  function TrimRight(s: string, chars: set<char>): string
  {
    if s != [] && s[|s| - 1] in chars then TrimRight(s[..|s| - 1], chars) else s
  }

  /** `trim($s, $chars)`: `rtrim` of `ltrim`. */
  function Trim(s: string, chars: set<char>): string
  {
    TrimRight(TrimLeft(s, chars), chars)
  }

  /** `ltrim` drops the longest prefix of characters in `chars`: what is left
      is a suffix of `s` that is empty or starts outside `chars`. */
  lemma {:induction false} TrimLeftDrops(s: string, chars: set<char>)
    ensures var r := TrimLeft(s, chars);
            |r| <= |s| && r == s[|s| - |r|..]
            && (forall i :: 0 <= i < |s| - |r| ==> s[i] in chars)
            && (r == [] || r[0] !in chars)
  {
    if s != [] && s[0] in chars {
      TrimLeftDrops(s[1..], chars);
    }
  }

  /** `rtrim` drops the longest suffix of characters in `chars`: what is left
      is a prefix of `s` that is empty or ends outside `chars`. */
  lemma {:induction false} TrimRightDrops(s: string, chars: set<char>)
    ensures var r := TrimRight(s, chars);
            |r| <= |s| && r == s[..|r|]
            && (forall i :: |r| <= i < |s| ==> s[i] in chars)
            && (r == [] || r[|r| - 1] !in chars)
  {
    if s != [] && s[|s| - 1] in chars {
      TrimRightDrops(s[..|s| - 1], chars);
    }
  }

  /** What `trim` leaves: the slice of `s` between a run of `chars` at the
      front and a run of `chars` at the back, with neither end in `chars`. */
  lemma TrimSlice(s: string, chars: set<char>)
    ensures |TrimLeft(s, chars)| <= |s|
    ensures var r, i := Trim(s, chars), |s| - |TrimLeft(s, chars)|;
            i + |r| <= |s| && r == s[i..i + |r|]
            && (forall k :: 0 <= k < i ==> s[k] in chars)
            && (forall k :: i + |r| <= k < |s| ==> s[k] in chars)
            && (r == [] || (r[0] !in chars && r[|r| - 1] !in chars))
  {
    var left := TrimLeft(s, chars);
    TrimLeftDrops(s, chars);
    TrimRightDrops(left, chars);
    var r := TrimRight(left, chars);
    assert r == s[|s| - |left|..|s| - |left| + |r|];
  }

  /** Trimming keeps a first character that is not in the list, so the result
      starts with it. */
  lemma TrimKeepsFirst(s: string, chars: set<char>)
    requires s != [] && s[0] !in chars
    ensures Trim(s, chars) != [] && Trim(s, chars)[0] == s[0]
  {
    assert TrimLeft(s, chars) == s;
    TrimRightDrops(s, chars);
  }

  /** A string with neither end in the list is its own trim. */
  lemma TrimUnchanged(s: string, chars: set<char>)
    requires s == [] || (s[0] !in chars && s[|s| - 1] !in chars)
    ensures Trim(s, chars) == s
  {
    assert TrimLeft(s, chars) == s;
  }
}
