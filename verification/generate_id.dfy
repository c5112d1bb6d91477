/**
 * `generateId`: a six-character identifier, used both as a short code and as a user id.
 * Each character is `possibleChars[Math.floor(Math.random() * 62)]`; the model receives
 * the six random indices as `draws` instead of calling the random source.
 */
module IdGen {

  /** The source's single 62-character literal (digits, lower case, upper case), split into three. */
  const PossibleChars: string := "0123456789" + "abcdefghijklmnopqrstuvwxyz" + "ABCDEFGHIJKLMNOPQRSTUVWXYZ"
  const StringLength: nat := 6

  /** One value of `Math.floor(Math.random() * possibleChars.length)`. */
  type CharIndex = i: int | 0 <= i < 62

  predicate IsAlphanumeric(c: char)
  {
    '0' <= c <= '9' || 'a' <= c <= 'z' || 'A' <= c <= 'Z'
  }

  /** The position of an alphanumeric character in PossibleChars. */
  function Rank(c: char): int
  {
    if '0' <= c <= '9' then c as int - '0' as int
    else if 'a' <= c <= 'z' then c as int - 'a' as int + 10
    else c as int - 'A' as int + 36
  }

  /** The identifier that the draws select, one character per draw. */
  function IdFrom(draws: seq<CharIndex>): string
  {
    seq(|draws|, i requires 0 <= i < |draws| => PossibleChars[draws[i]])
  }

  /** The alphabet has 62 alphanumeric characters, each at its own rank, so none repeats. */
  lemma AlphabetRanks(i: int)
    requires 0 <= i < |PossibleChars|
    ensures |PossibleChars| == 62
    ensures IsAlphanumeric(PossibleChars[i]) && Rank(PossibleChars[i]) == i
  {
  }

  /** Different draws give different identifiers: the id space has 62^6 members. */
  lemma IdFromInjective(d1: seq<CharIndex>, d2: seq<CharIndex>)
    requires |d1| == |d2|
    requires d1 != d2
    ensures IdFrom(d1) != IdFrom(d2)
  {
    var i :| 0 <= i < |d1| && d1[i] != d2[i];
    AlphabetRanks(d1[i]);
    AlphabetRanks(d2[i]);
    assert IdFrom(d1)[i] != IdFrom(d2)[i];
  }

  /** `generateId()`: six draws appended one character at a time. */
  method GenerateId(draws: seq<CharIndex>) returns (randomString: string)
    requires |draws| == StringLength
    ensures |randomString| == StringLength
    ensures forall i :: 0 <= i < StringLength ==> randomString[i] == PossibleChars[draws[i]]
    ensures forall c :: c in randomString ==> c in PossibleChars && IsAlphanumeric(c)
    ensures randomString == IdFrom(draws)
  {
    randomString := "";
    var i := 0;
    while i < StringLength
      invariant 0 <= i <= StringLength
      invariant |randomString| == i
      invariant forall j :: 0 <= j < i ==> randomString[j] == PossibleChars[draws[j]]
      invariant forall c :: c in randomString ==> c in PossibleChars && IsAlphanumeric(c)
    {
      var randomIndex := draws[i];
      AlphabetRanks(randomIndex);
      randomString := randomString + [PossibleChars[randomIndex]];
      i := i + 1;
    }
  }
}
