/** JavaScript's `String.prototype.split` with a non-empty string separator,
    `Array.prototype.join`, and array indexing that yields `undefined` past the end. */
module JsString {
  import opened Common

  /** `sep` occurs in `s` starting at index `i`. */
  predicate OccursAt(s: string, sep: string, i: nat)
  {
    i + |sep| <= |s| && s[i..i + |sep|] == sep
  }

  /** `s.indexOf(sep, from)`, with `None` for JavaScript's -1. */
  function IndexOf(s: string, sep: string, from: nat): (r: Option<nat>)
    ensures r.Some? ==> from <= r.value && OccursAt(s, sep, r.value)
    ensures r.Some? ==> forall j: nat :: from <= j < r.value ==> !OccursAt(s, sep, j)
    ensures r.None? ==> forall j: nat :: from <= j ==> !OccursAt(s, sep, j)
    decreases |s| - from
  {
    if |s| < from + |sep| then None
    else if s[from..from + |sep|] == sep then Some(from)
    else IndexOf(s, sep, from + 1)
  }

  /** Where the text before the first `sep` ends: the first occurrence, or `|s|` when there is none. */
  function FirstIndex(s: string, sep: string): (i: nat)
    ensures i <= |s|
  {
    match IndexOf(s, sep, 0)
    case Some(i) => i
    case None => |s|
  }

  /** The text of `s` before the first `sep` (all of `s` when `sep` does not occur). */
  function TextBefore(s: string, sep: string): string
  {
    s[..FirstIndex(s, sep)]
  }

  /** `parts.join(sep)`; joining no parts gives the empty string. */
  function Join(parts: seq<string>, sep: string): string
  {
    if |parts| == 0 then ""
    else if |parts| == 1 then parts[0]
    else parts[0] + sep + Join(parts[1..], sep)
  }

  /** `s.split(sep)` for a non-empty separator: the pieces between the occurrences of
      `sep`, scanned from the left. Joining the pieces back gives `s`, no piece
      contains `sep`, and there is one more piece than there are occurrences taken. */
  function Split(s: string, sep: string): (parts: seq<string>)
    requires |sep| > 0
    ensures |parts| >= 1
    ensures parts[0] == TextBefore(s, sep)
    ensures Join(parts, sep) == s
    ensures forall k: nat, j: nat :: k < |parts| ==> !OccursAt(parts[k], sep, j)
    ensures |parts| == 1 <==> IndexOf(s, sep, 0).None?
    decreases |s|
  {
    match IndexOf(s, sep, 0)
    case None =>
      assert forall j: nat :: !OccursAt(s, sep, j);
      [s]
    case Some(i) =>
      FirstCut(s, sep, i);
      var rest := Split(s[i + |sep|..], sep);
      var parts := [s[..i]] + rest;
      assert parts[1..] == rest;
      assert Join(parts, sep) == s[..i] + sep + Join(rest, sep);
      assert forall k: nat :: 0 < k < |parts| ==> parts[k] == rest[k - 1];
      parts
  }

  /** At the first occurrence of `sep` the text falls into the part before it, which holds
      no `sep`, the separator itself and the rest. */
  lemma {:induction false} FirstCut(s: string, sep: string, i: nat)
    requires |sep| > 0 && IndexOf(s, sep, 0) == Some(i)
    ensures s == s[..i] + sep + s[i + |sep|..]
    ensures forall j: nat :: !OccursAt(s[..i], sep, j)
  {
    var head := s[..i];
    forall j: nat | j + |sep| <= i ensures !OccursAt(head, sep, j) {
      assert !OccursAt(s, sep, j);
      assert head[j..j + |sep|] == s[j..j + |sep|];
    }
    assert s[i..i + |sep|] == sep;
  }

  /** `parts[i]`, with `None` for JavaScript's `undefined` past the end. */
  function Field(parts: seq<string>, i: nat): Option<string>
  {
    if i < |parts| then Some(parts[i]) else None
  }

  /** A separator occurs first at `m` when its first character does not appear before `m`. */
  lemma IndexOfAfterFree(s: string, sep: string, m: nat)
    requires |sep| > 0 && OccursAt(s, sep, m)
    requires sep[0] !in s[..m]
    ensures IndexOf(s, sep, 0) == Some(m)
    ensures FirstIndex(s, sep) == m
  {
    forall j: nat | j < m ensures !OccursAt(s, sep, j) {
      assert s[..m][j] == s[j];
    }
  }

  /** Splitting text that lacks the separator's first character gives the text alone. */
  lemma SplitWhole(s: string, sep: string)
    requires |sep| > 0 && sep[0] !in s
    ensures Split(s, sep) == [s]
  {
    assert forall j: nat :: !OccursAt(s, sep, j) by {
      forall j: nat | j < |s| ensures s[j] != sep[0] { }
    }
    assert IndexOf(s, sep, 0).None?;
  }

  /** The first piece ends at the first separator when nothing before it could start one. */
  lemma SplitAfter(a: string, sep: string, b: string)
    requires |sep| > 0 && sep[0] !in a
    ensures Split(a + sep + b, sep) == [a] + Split(b, sep)
  {
    var s := a + sep + b;
    assert s[..|a|] == a;
    assert s[|a|..|a| + |sep|] == sep;
    IndexOfAfterFree(s, sep, |a|);
    assert s[|a| + |sep|..] == b;
  }

  /** `parts.join(sep).split(sep)` gives `parts` back when no part holds the separator's
      first character (a single part included; no parts at all give `[""]`). */
  lemma {:induction false} SplitJoin(parts: seq<string>, sep: string)
    requires |sep| > 0 && |parts| >= 1
    requires forall k :: 0 <= k < |parts| ==> sep[0] !in parts[k]
    ensures Split(Join(parts, sep), sep) == parts
  {
    if |parts| == 1 {
      SplitWhole(parts[0], sep);
    } else {
      SplitJoin(parts[1..], sep);
      SplitAfter(parts[0], sep, Join(parts[1..], sep));
    }
  }

  /** For a one-character separator, cutting the text anywhere after its first
      occurrence does not move that occurrence. */
  lemma FirstIndexOfPrefix(s: string, c: char, k: nat)
    requires FirstIndex(s, [c]) <= k <= |s|
    ensures FirstIndex(s[..k], [c]) == FirstIndex(s, [c])
  {
    var m := FirstIndex(s, [c]);
    assert s[..k][..m] == s[..m];
    forall j: nat | j < m ensures s[j] != c {
      assert !OccursAt(s, [c], j);
      assert s[j..j + 1] == [s[j]];
    }
    if m < k {
      assert OccursAt(s, [c], m);
      assert s[..k][m..m + 1] == s[m..m + 1];
      IndexOfAfterFree(s[..k], [c], m);
    } else {
      assert s[..k] == s[..m];
      forall j: nat | j < k ensures !OccursAt(s[..k], [c], j) {
        assert s[..k][j..j + 1] == [s[j]];
      }
      assert forall j: nat :: !OccursAt(s[..k], [c], j);
    }
  }

  /** The text of `s` after the first `sep`. */
  function TextAfter(s: string, sep: string): string
    requires IndexOf(s, sep, 0).Some?
  {
    s[IndexOf(s, sep, 0).value + |sep|..]
  }

  /** A character that does not appear before index `m` but sits at `m` is where the text
      is cut at that character. */
  lemma CharCut(s: string, c: char, m: nat)
    requires m < |s| && s[m] == c && c !in s[..m]
    ensures IndexOf(s, [c], 0) == Some(m)
    ensures TextBefore(s, [c]) == s[..m]
    ensures TextAfter(s, [c]) == s[m + 1..]
  {
    assert s[m..m + 1] == [c];
    IndexOfAfterFree(s, [c], m);
  }

  /** After the first piece, the pieces are those of the text after the first `sep`. */
  lemma SplitRest(s: string, sep: string)
    requires |sep| > 0 && IndexOf(s, sep, 0).Some?
    ensures Split(s, sep)[1..] == Split(TextAfter(s, sep), sep)
  {
  }

  /** A one-character separator is found exactly when the character is in the text. */
  lemma FoundIffPresent(s: string, c: char)
    ensures IndexOf(s, [c], 0).None? <==> c !in s
  {
    if c in s {
      var j :| 0 <= j < |s| && s[j] == c;
      assert s[j..j + 1] == [c];
      assert OccursAt(s, [c], j);
    } else {
      forall j: nat | j < |s| ensures !OccursAt(s, [c], j) {
        assert s[j..j + 1] == [s[j]];
      }
    }
  }

  /** Cutting at a separator that begins with `c` and then at `c` is the same as cutting at `c`. */
  lemma TextBeforeOfTextBefore(s: string, sep: string, c: char)
    requires |sep| > 0 && sep[0] == c
    ensures TextBefore(TextBefore(s, sep), [c]) == TextBefore(s, [c])
  {
    var k := FirstIndex(s, sep);
    if k < |s| {
      assert OccursAt(s, sep, k);
      assert s[k..k + 1] == [s[k..k + |sep|][0]];
      assert OccursAt(s, [c], k);
    }
    FirstIndexOfPrefix(s, c, k);
    assert s[..k][..FirstIndex(s, [c])] == s[..FirstIndex(s, [c])];
  }
}
