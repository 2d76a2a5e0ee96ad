/** The substring searches the engine and the Ceph client rely on. */
module Text {

  predicate OccursAt(needle: string, hay: string, i: nat) {
    i + |needle| <= |hay| && hay[i..i + |needle|] == needle
  }

  /** Python's `needle in hay`. */
  predicate Contains(hay: string, needle: string) {
    exists i | 0 <= i <= |hay| :: OccursAt(needle, hay, i)
  }

  predicate HexDigit(c: char) {
    '0' <= c <= '9' || 'a' <= c <= 'f' || 'A' <= c <= 'F'
  }

  /** The text form of section 4 of RFC 9562: hexadecimal digits in groups of 8, 4, 4, 4 and 12. */
  predicate Uuid(s: string) {
    |s| == 36 &&
    forall i | 0 <= i < 36 :: if i in {8, 13, 18, 23} then s[i] == '-' else HexDigit(s[i])
  }

  const VOLUME := "volume-"

  /** Two hexadecimal digits in a row begin only behind the prefix of an image name. */
  lemma HexPairBehind(own: string, i: nat)
    requires |own| == 36 && i <= 7
    requires HexDigit((VOLUME + own)[i]) && HexDigit((VOLUME + own)[i + 1])
    ensures i == 7
  {
    assert forall k | 0 <= k < 7 :: (VOLUME + own)[k] == VOLUME[k];
    assert forall k | 0 <= k < 7 && HexDigit(VOLUME[k]) :: k == 5;
  }

  lemma OccursOnlyBehind(own: string, other: string, i: nat)
    requires Uuid(own) && Uuid(other) && OccursAt(other, VOLUME + own, i)
    ensures i == 7 && other == own
  {
    var image := VOLUME + own;
    assert other[0] == image[i..i + 36][0] && other[1] == image[i..i + 36][1];
    assert HexDigit(other[0]) && HexDigit(other[1]);
    HexPairBehind(own, i);
    assert image[7..43] == own;
  }

  /** Searching an image name for a UUID finds exactly the UUID the name was made from. */
  lemma UuidSearchIsExact(own: string, other: string)
    requires Uuid(own) && Uuid(other)
    ensures Contains(VOLUME + own, other) <==> other == own
  {
    var image := VOLUME + own;
    if Contains(image, other) {
      var i :| 0 <= i <= |image| && OccursAt(other, image, i);
      OccursOnlyBehind(own, other, i);
    }
    if other == own {
      assert image[7..43] == own;
      assert OccursAt(other, image, 7);
    }
  }
}
