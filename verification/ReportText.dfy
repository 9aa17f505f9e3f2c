/** Which characters of a report line are quoted, on the printed text itself. */
module ReportText {
  import opened Common
  import opened ReportLine

  /** Letters, digits and a few marks. */
  predicate Simple(c: char) {
    'a' <= c <= 'z' || 'A' <= c <= 'Z' || '0' <= c <= '9' || c in "+,-./:@_"
  }

  predicate AllSimple(a: string) { forall i :: 0 <= i < |a| ==> Simple(a[i]) }

  /** What a shell would still act on inside double quotes. */
  predicate Special(c: char) { c in "\\\"$`" }

  predicate Unprintable(c: char) { !(' ' <= c <= '~') }

  /** Read from the left, with the character behind each backslash passed over, the text has no special one. */
  predicate Safe(s: string) {
    |s| == 0 ||
    if s[0] == '\\' then |s| > 1 && Safe(s[2..]) else !Special(s[0]) && Safe(s[1..])
  }

  function Specials(a: string): nat {
    if |a| == 0 then 0 else Specials(a[..|a| - 1]) + if Special(a[|a| - 1]) then 1 else 0
  }

  function Unprintables(a: string): nat {
    if |a| == 0 then 0 else Unprintables(a[..|a| - 1]) + if Unprintable(a[|a| - 1]) then 1 else 0
  }

  lemma SimpleIsPlain(c: char)
    ensures Simple(c) <==> Plain(c)
  {
  }

  lemma EscapedSafe(c: char, s: string)
    requires IsByte(c)
    ensures Safe(Escaped(c) + s) == Safe(s)
    ensures |Escaped(c)| == 1 + (if Special(c) then 1 else 0) + (if Unprintable(c) then 3 else 0)
  {
    if NeedsBackslash(c) {
      SafePair('\\', c, s);
    } else if c < ' ' || c > '~' {
      HexRoundTrip(c);
      var h, l := HexDigit(c as int / 16), HexDigit(c as int % 16);
      SafeOne(l, s);
      SafeOne(h, [l] + s);
      SafePair('\\', 'x', [h] + ([l] + s));
      assert Escaped(c) + s == ['\\', 'x'] + ([h] + ([l] + s));
    } else {
      SafeOne(c, s);
    }
  }

  lemma SafeOne(c: char, s: string)
    requires c != '\\' && !Special(c)
    ensures Safe([c] + s) == Safe(s)
  {
    assert ([c] + s)[1..] == s;
  }

  lemma SafePair(backslash: char, c: char, s: string)
    requires backslash == '\\'
    ensures Safe([backslash, c] + s) == Safe(s)
  {
    assert ([backslash, c] + s)[2..] == s;
  }

  lemma {:induction false} EscapedAllSafe(a: string)
    requires IsArgument(a)
    ensures Safe(EscapedAll(a))
    decreases |a|
  {
    if |a| == 0 {
    } else {
      EscapedCons(a);
      EscapedAllSafe(a[1..]);
      EscapedSafe(a[0], EscapedAll(a[1..]));
    }
  }

  lemma {:induction false} EscapedAllLength(a: string)
    requires IsArgument(a)
    ensures |EscapedAll(a)| == |a| + Specials(a) + 3 * Unprintables(a)
  {
    if |a| == 0 {
    } else {
      EscapedAllLength(a[..|a| - 1]);
      EscapedSafe(a[|a| - 1], []);
    }
  }

  /**
   An argument of simple characters is printed as it is. Any other is printed in quotes, in which exactly the
   special characters have a backslash and the unprintable ones are four characters; nothing special stands bare.
   */
  lemma QuotedIff(a: string)
    requires IsArgument(a)
    ensures AllSimple(a) ==> Dumped(a) == a
    ensures !AllSimple(a) ==>
      exists inner: string ::
        && Dumped(a) == ['"'] + inner + ['"'] && Safe(inner)
        && |inner| == |a| + Specials(a) + 3 * Unprintables(a)
  {
    forall i | 0 <= i < |a| ensures Simple(a[i]) <==> Plain(a[i]) { SimpleIsPlain(a[i]); }
    if !AllSimple(a) {
      EscapedAllSafe(a);
      EscapedAllLength(a);
      assert Dumped(a) == ['"'] + EscapedAll(a) + ['"'];
    }
  }
}
