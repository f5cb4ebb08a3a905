/** Card and user identifiers: the document store's 12-byte object ids,
    written as hexadecimal strings. */
module ObjectIds {

  predicate IsHexDigit(ch: char) {
    '0' <= ch <= '9' || 'a' <= ch <= 'f' || 'A' <= ch <= 'F'
  }

  /** The strings `new ObjectId(s)` accepts in this model: 24 hexadecimal
      digits. Any other string makes the constructor throw. */
  predicate ValidId(s: string)
    ensures ValidId(s) ==> |s| == 24
    ensures ValidId(s) ==> forall i :: 0 <= i < |s| ==>
      '0' <= LowerHex(s[i]) <= '9' || 'a' <= LowerHex(s[i]) <= 'f'
  {
    |s| == 24 && forall i :: 0 <= i < |s| ==> IsHexDigit(s[i])
  }

  /** Every id of the list is well-formed. */
  predicate AllValid(ids: seq<string>) {
    forall i :: 0 <= i < |ids| ==> ValidId(ids[i])
  }

  /** Hex parsing ignores case; an id rendered back to a string is lower-case. */
  predicate IsCanonical(s: string) {
    ValidId(s) && forall i :: 0 <= i < |s| ==> !('A' <= s[i] <= 'F')
  }

  function LowerHex(ch: char): char {
    if 'A' <= ch <= 'F' then (ch as int + 32) as char else ch
  }

  /** The string form of the object id that `s` denotes. */
  function Canon(s: string): (r: string)
    ensures |r| == |s|
    ensures ValidId(s) ==> IsCanonical(r)
    ensures IsCanonical(s) ==> r == s
  {
    seq(|s|, i requires 0 <= i < |s| => LowerHex(s[i]))
  }

  /** Parsing a rendered id gives the same id back. */
  lemma CanonIdempotent(s: string)
    requires ValidId(s)
    ensures Canon(Canon(s)) == Canon(s)
  {
  }
}
