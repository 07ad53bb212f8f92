/**
 * The comment list column of the forum admin (forum/admin.py,
 * CommentAdmin.get_short): a comment's description cut to 24 characters,
 * with an ellipsis when anything was cut.
 */
module ForumAdmin {
  const ShortLength: nat := 24
  const Ellipsis: string := "..."

  function Min(a: int, b: int): int {
    if a <= b then a else b
  }

  function GetShort(description: string): (short: string)
    ensures |description| <= ShortLength ==> short == description
    ensures |description| > ShortLength ==> |short| == ShortLength + |Ellipsis| && short[ShortLength..] == Ellipsis
    ensures |short| <= ShortLength + |Ellipsis|
    ensures var n := Min(ShortLength, |description|); short[..n] == description[..n]
  {
    if |description| <= ShortLength then description
    else description[..ShortLength] + Ellipsis
  }

  /** Shortening a shortened description changes nothing. */
  lemma GetShortIdempotent(description: string)
    ensures GetShort(GetShort(description)) == GetShort(description)
  {
    if |description| > ShortLength {
      var short := GetShort(description);
      assert short[..ShortLength] == description[..ShortLength];
    }
  }
}
