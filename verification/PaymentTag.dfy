/** The payment tag carried in a transaction's data: ASCII "GORR_PAY:" followed by a decimal invoice id. */
module PaymentTag {
  import opened Types

  /** "GORR_PAY:" in ASCII. */
  const PREFIX: seq<byte> := [71, 79, 82, 82, 95, 80, 65, 89, 58]

  predicate IsDigit(c: byte) {
    48 <= c <= 57
  }

  /** strconv.ParseUint(s, 10, 64): left to right, stopping at the first bad digit or overflow. */
  function ParseUint(s: seq<byte>): Option<uint64> {
    if |s| == 0 then None else ParseDigits(s)
  }

  function ParseDigits(s: seq<byte>): Option<uint64> {
    if |s| == 0 then Some(0)
    else
      match ParseDigits(s[..|s| - 1])
      case None => None
      case Some(n) =>
        var c := s[|s| - 1];
        if !IsDigit(c) then None
        else
          var next := n * 10 + (c as int - 48);
          if next < U64 then Some(next) else None
  }

  function ParseTag(data: seq<byte>): Option<uint64> {
    if |data| == 0 || !(PREFIX <= data) then None
    else ParseUint(data[|PREFIX|..])
  }

  // ---------------------------------------------------------------------------------------------
  // Reference meaning of a digit string, and its printer
  // ---------------------------------------------------------------------------------------------

  ghost predicate AllDigits(s: seq<byte>) {
    forall i :: 0 <= i < |s| ==> IsDigit(s[i])
  }

  /** The number a digit string denotes, with no bound. */
  ghost function Denotes(s: seq<byte>): nat
    requires AllDigits(s)
  {
    if |s| == 0 then 0 else Denotes(s[..|s| - 1]) * 10 + (s[|s| - 1] as int - 48)
  }

  lemma {:induction false} ParseDigitsExact(s: seq<byte>)
    ensures ParseDigits(s).Some? <==> AllDigits(s) && Denotes(s) < U64
    ensures ParseDigits(s).Some? ==> ParseDigits(s).value == Denotes(s)
  {
    if |s| > 0 {
      var init := s[..|s| - 1];
      ParseDigitsExact(init);
      assert s == init + [s[|s| - 1]];
      assert AllDigits(s) <==> AllDigits(init) && IsDigit(s[|s| - 1]);
    }
  }

  /** The tag parser accepts exactly the prefix and one or more digits denoting a uint64. */
  lemma ParseTagExact(data: seq<byte>, id: uint64)
    ensures ParseTag(data) == Some(id) <==>
              exists s: seq<byte> :: |s| > 0 && AllDigits(s) && data == PREFIX + s && Denotes(s) == id
  {
    if ParseTag(data) == Some(id) {
      var s := data[|PREFIX|..];
      ParseDigitsExact(s);
      assert data == PREFIX + s;
    }
    if s: seq<byte> :| |s| > 0 && AllDigits(s) && data == PREFIX + s && Denotes(s) == id {
      ParseDigitsExact(s);
      assert data[|PREFIX|..] == s;
    }
  }

  /** The decimal digits of a number, most significant first. */
  function Print(n: nat): seq<byte> {
    var last := [(48 + n % 10) as byte];
    if n < 10 then last else Print(n / 10) + last
  }

  lemma {:induction false} PrintDenotes(n: nat)
    ensures |Print(n)| > 0 && AllDigits(Print(n)) && Denotes(Print(n)) == n
  {
    var last := (48 + n % 10) as byte;
    if n < 10 {
      assert Denotes([]) == 0;
      assert Print(n)[..0] == [];
    } else {
      PrintDenotes(n / 10);
      assert Print(n)[..|Print(n)| - 1] == Print(n / 10);
    }
  }

  /** Parsing the tag with an id in decimal gives the id back, for every uint64. */
  lemma TagRoundTrip(id: uint64)
    ensures ParseTag(PREFIX + Print(id)) == Some(id)
  {
    PrintDenotes(id);
    ParseTagExact(PREFIX + Print(id), id);
  }
}
