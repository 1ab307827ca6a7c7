/** Java-level building blocks shared by the model: optional and failure values,
    nullable strings, the `org.apache.commons.lang3.StringUtils` predicates the
    source relies on, and `java.lang.String.split` on a one-character separator. */
module Lang {

  datatype Option<+T> = None | Some(value: T)

  datatype Result<+T, +E> = Ok(value: T) | Err(error: E)

  /** A `java.lang.String` reference: `null` or a character sequence. */
  datatype JStr = Null | Str(s: string)

  /** `Character.isWhitespace`: the ASCII controls 9-13 and 28-31, the space,
      and the Unicode space, line and paragraph separators except the
      non-breaking ones (U+00A0, U+2007, U+202F). */
  predicate IsWhitespace(c: char) {
    var n := c as int;
    n == 0x20 || 0x09 <= n <= 0x0D || 0x1C <= n <= 0x1F
    || n == 0x1680 || 0x2000 <= n <= 0x2006 || 0x2008 <= n <= 0x200A
    || n == 0x2028 || n == 0x2029 || n == 0x205F || n == 0x3000
  }

  /** `StringUtils.isBlank`: null, empty, or whitespace only. */
  predicate IsBlank(x: JStr) {
    x.Null? || forall i :: 0 <= i < |x.s| ==> IsWhitespace(x.s[i])
  }

  /** `StringUtils.isEmpty`: null or of length zero (a blank " " is not empty). */
  predicate IsEmpty(x: JStr) {
    x.Null? || |x.s| == 0
  }

  /** Case folding used for every "ignore case" comparison (ASCII letters only). */
  function FoldCase(c: char): char {
    if 'A' <= c <= 'Z' then (c as int + 32) as char else c
  }

  function Lower(s: string): (r: string)
    ensures |r| == |s|
    ensures forall i :: 0 <= i < |s| ==> r[i] == FoldCase(s[i])
  {
    seq(|s|, i requires 0 <= i < |s| => FoldCase(s[i]))
  }

  /** `String.equalsIgnoreCase` on two non-null strings. */
  predicate SameIgnoringCase(a: string, b: string) {
    Lower(a) == Lower(b)
  }

  /** `StringUtils.equalsIgnoreCase` (and `equalsAnyIgnoreCase` with one candidate):
      two nulls are equal, a null never equals a string. */
  predicate EqualsIgnoreCase(a: JStr, b: JStr) {
    if a.Null? || b.Null? then a.Null? && b.Null? else SameIgnoringCase(a.s, b.s)
  }

  /** `StringUtils.startsWithIgnoreCase`: false for a null string. */
  predicate StartsWithIgnoreCase(x: JStr, prefix: string) {
    x.Str? && |prefix| <= |x.s| && SameIgnoringCase(x.s[..|prefix|], prefix)
  }

  /** `StringUtils.endsWithIgnoreCase`: false for a null string. */
  predicate EndsWithIgnoreCase(x: JStr, suffix: string) {
    x.Str? && |suffix| <= |x.s| && SameIgnoringCase(x.s[|x.s| - |suffix|..], suffix)
  }

  /** Java string concatenation renders `null` as the text "null". */
  function Show(x: JStr): string {
    if x.Null? then "null" else x.s
  }

  /** Every piece between two commas of `s`, trailing empty pieces included. */
  function Pieces(s: string): (r: seq<string>)
    ensures |r| >= 1
  {
    if s == [] then [""]
    else
      var rest := Pieces(s[1..]);
      if s[0] == ',' then [""] + rest else [[s[0]] + rest[0]] + rest[1..]
  }

  /** The pieces glued back together with commas. */
  function Join(pieces: seq<string>): string {
    if |pieces| == 0 then ""
    else if |pieces| == 1 then pieces[0]
    else pieces[0] + "," + Join(pieces[1..])
  }

  /** Drops the empty pieces at the end (what `split` does with limit 0). */
  function DropTrailingEmpty(ps: seq<string>): (r: seq<string>)
    ensures r <= ps
    ensures forall j :: |r| <= j < |ps| ==> ps[j] == ""
    ensures |r| > 0 ==> r[|r| - 1] != ""
  {
    if |ps| > 0 && ps[|ps| - 1] == "" then DropTrailingEmpty(ps[..|ps| - 1]) else ps
  }

  /** `s.split(",")`: a string without a comma splits into itself (so "" gives
      [""]); otherwise the pieces, with trailing empty pieces removed. */
  function Split(s: string): (r: seq<string>)
    ensures |r| >= 1 || ',' in s
    ensures forall p :: p in r ==> ',' !in p
  {
    if ',' !in s then [s]
    else
      PiecesHaveNoComma(s);
      var r := DropTrailingEmpty(Pieces(s));
      assert forall p :: p in r ==> p in Pieces(s);
      r
  }

  lemma {:induction false} PiecesJoin(s: string)
    ensures Join(Pieces(s)) == s
  {
    if s != [] {
      var rest := Pieces(s[1..]);
      PiecesJoin(s[1..]);
      if s[0] == ',' {
        assert Pieces(s) == [""] + rest;
        assert ([""] + rest)[1..] == rest;
        assert s == "," + s[1..];
      } else {
        var head := [s[0]] + rest[0];
        assert Pieces(s) == [head] + rest[1..];
        if |rest| == 1 {
          assert Join(rest) == rest[0];
        } else {
          assert ([head] + rest[1..])[1..] == rest[1..];
          assert Join(rest) == rest[0] + "," + Join(rest[1..]);
        }
        assert s == [s[0]] + s[1..];
      }
    }
  }

  lemma {:induction false} PiecesHaveNoComma(s: string)
    ensures forall p :: p in Pieces(s) ==> ',' !in p
  {
    if s != [] {
      var rest := Pieces(s[1..]);
      PiecesHaveNoComma(s[1..]);
      if s[0] != ',' {
        var head := [s[0]] + rest[0];
        assert Pieces(s) == [head] + rest[1..];
        assert rest[0] in rest;
        forall p | p in Pieces(s) ensures ',' !in p {
          if p != head {
            assert p in rest;
          }
        }
      }
    }
  }

  lemma {:induction false} PiecesWithoutComma(s: string)
    requires ',' !in s
    ensures Pieces(s) == [s]
  {
    if s != [] {
      assert ',' !in s[1..] by {
        forall k | 0 <= k < |s[1..]| ensures s[1..][k] != ',' {
          assert s[1..][k] == s[k + 1];
        }
      }
      PiecesWithoutComma(s[1..]);
      assert [s[0]] + s[1..] == s;
    }
  }

  /** `split(",")` returns a prefix of the comma-separated pieces whose
      remainder is all empty pieces, and the pieces rejoined give back the
      string. */
  lemma SplitIsPiecesPrefix(s: string)
    ensures Split(s) <= Pieces(s)
    ensures forall j :: |Split(s)| <= j < |Pieces(s)| ==> Pieces(s)[j] == ""
    ensures s != "" && |Split(s)| > 0 ==> Split(s)[|Split(s)| - 1] != ""
    ensures Join(Pieces(s)) == s
  {
    PiecesJoin(s);
    if ',' !in s {
      PiecesWithoutComma(s);
    }
  }
}
