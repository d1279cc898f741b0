/** The phone-number mask of the settings screen. */
module PhoneMask {

  /** `joinToString("") { "*" }` over a range of `count` elements. */
  function Stars(count: nat): (r: string)
    ensures |r| == count && forall i :: 0 <= i < count ==> r[i] == '*'
  {
    seq(count, _ => '*')
  }

  /** The number of elements of the inclusive range `lo..hi`: none when
      `hi < lo`. */
  function RangeSize(lo: int, hi: int): nat {
    if hi < lo then 0 else hi - lo + 1
  }

  /** `takeLast(n)`: the last `min(n, |s|)` characters. */
  function TakeLast(s: string, n: nat): (r: string)
    ensures |r| == if n < |s| then n else |s|
    ensures r == s[|s| - |r|..]
  {
    if n < |s| then s[|s| - n..] else s
  }

  /** `hidePhoneNumber()` as written: one star per element of `0..length - 3`,
      then the last three characters. */
  function HidePhoneNumber(s: string): string {
    Stars(RangeSize(0, |s| - 3)) + TakeLast(s, 3)
  }

  /** The output ends with the last `min(3, |s|)` characters of the input,
      and every character before them is a star; from three characters on
      there are `|s| - 2` stars, one character more than the input has. */
  lemma HidePhoneNumberShape(s: string)
    ensures var r := HidePhoneNumber(s);
      var k := if |s| < 3 then |s| else 3;
      |r| >= k && r[|r| - k..] == s[|s| - k..]
      && (forall i :: 0 <= i < |r| - k ==> r[i] == '*')
      && (|s| >= 3 ==> |r| == |s| + 1 && |r| - k == |s| - 2)
      && (|s| <= 2 ==> r == s)
  {
    var r := HidePhoneNumber(s);
    var k := if |s| < 3 then |s| else 3;
    var stars := Stars(RangeSize(0, |s| - 3));
    assert r[|r| - k..] == TakeLast(s, 3);
    assert forall i :: 0 <= i < |r| - k ==> r[i] == stars[i];
  }

  /** A four-digit number shows two stars, not one: "0123" becomes "**123". */
  lemma HidePhoneNumberAddsAStar()
    ensures HidePhoneNumber("0123") == "**123"
    ensures |HidePhoneNumber("0123")| == |"0123"| + 1
  {
    assert Stars(2) == "**";
    assert TakeLast("0123", 3) == "123";
  }

  /** The mask evidently intended: every character but the last three
      becomes a star, so the length is kept. */
  function MaskPhoneNumber(s: string): (r: string)
    ensures |r| == |s|
    ensures forall i :: 0 <= i < |s| ==> r[i] == if i < |s| - 3 then '*' else s[i]
  {
    var stars := Stars(if |s| < 3 then 0 else |s| - 3);
    var r := stars + TakeLast(s, 3);
    assert forall i :: |stars| <= i < |s| ==> r[i] == TakeLast(s, 3)[i - |stars|];
    r
  }

  /** The code as written emits exactly one star more than the intended
      mask, whenever the number has at least three characters. */
  lemma HidePhoneNumberIsMaskPlusOneStar(s: string)
    requires |s| >= 3
    ensures HidePhoneNumber(s) == "*" + MaskPhoneNumber(s)
  {
    var r := HidePhoneNumber(s);
    var m := "*" + MaskPhoneNumber(s);
    HidePhoneNumberShape(s);
    assert |r| == |m|;
    forall i | 0 <= i < |r| ensures r[i] == m[i] {
      if i >= |r| - 3 {
        assert r[i] == r[|r| - 3..][i - (|r| - 3)];
      }
    }
  }
}
