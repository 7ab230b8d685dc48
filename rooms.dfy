/** Room codes: the host's random six-digit code and the length check the
    guest's join form applies before connecting. */
module Rooms {
  import opened JsText

  const CodeLength := 6
  const LowestCode := 100000
  const HighestCode := 999999

  /** generateRoomCode's number, `Math.floor(100000 + random * 900000)`,
      for a `Math.random()` result in [0, 1). */
  function GenerateRoomCode(random: real): (code: int)
    requires 0.0 <= random < 1.0
    ensures LowestCode <= code <= HighestCode
  {
    (100000.0 + random * 900000.0).Floor
  }

  /** The code as generateRoomCode returns it, via `.toString()`: always
      six decimal digits. */
  function RoomCodeText(random: real): (r: string)
    requires 0.0 <= random < 1.0
    ensures |r| == CodeLength
    ensures forall i :: 0 <= i < |r| ==> IsDigit(r[i], 10)
  {
    var code := GenerateRoomCode(random);
    assert Pow10(5) == LowestCode && Pow10(6) == HighestCode + 1;
    DecimalLength(code, 6);
    DecimalString(code)
  }

  /** joinRoom's check on the trimmed input: it must be non-empty and its
      `.length`, in UTF-16 code units, must be six. Nothing checks that the
      characters are digits. */
  predicate JoinCodeAccepted(input: string)
    ensures JoinCodeAccepted(input) ==> 3 <= |Trim(input)| <= CodeLength
    ensures (forall i :: 0 <= i < |Trim(input)| ==> Trim(input)[i] as int < 0x10000)
              ==> (JoinCodeAccepted(input) <==> |Trim(input)| == CodeLength)
  {
    var code := Trim(input);
    !(code == [] || Utf16Length(code) != CodeLength)
  }

  type Positive = x: int | x >= 1 witness 1

  function Pow10(k: nat): Positive {
    if k == 0 then 1 else 10 * Pow10(k - 1)
  }

  /** A number with k digits prints as k characters. */
  lemma {:induction false} DecimalLength(n: nat, k: nat)
    requires 1 <= k && Pow10(k - 1) <= n < Pow10(k) && n < ExponentFormFrom
    ensures |DecimalString(n)| == k
  {
    if k > 1 {
      assert n >= 10;
      DecimalLength(n / 10, k - 1);
    }
  }

  /** Every code the host generates passes the guest's check. */
  lemma GeneratedCodeAccepted(random: real)
    requires 0.0 <= random < 1.0
    ensures |RoomCodeText(random)| == CodeLength
    ensures JoinCodeAccepted(RoomCodeText(random))
  {
    var s := RoomCodeText(random);
    assert !IsJsSpace(s[0]) && !IsJsSpace(s[|s| - 1]);
  }

  /** White space around a pasted code is ignored: a six-character code
      with any padding is accepted. */
  lemma PaddedCodeAccepted(pre: string, code: string, post: string)
    requires forall i :: 0 <= i < |pre| ==> IsJsSpace(pre[i])
    requires forall i :: 0 <= i < |post| ==> IsJsSpace(post[i])
    requires Utf16Length(code) == CodeLength && !IsJsSpace(code[0]) && !IsJsSpace(code[|code| - 1])
    ensures JoinCodeAccepted(pre + code + post)
  {
    var rest := code + post;
    var t := pre + rest;
    assert t == pre + code + post;
    TrimStartSkips(pre, rest);
    TrimEndSkips(code, post);
    assert Trim(t) == TrimEnd(rest) == code;
  }

  lemma {:induction false} TrimStartSkips(pre: string, s: string)
    requires forall i :: 0 <= i < |pre| ==> IsJsSpace(pre[i])
    requires s != [] && !IsJsSpace(s[0])
    ensures TrimStart(pre + s) == s
  {
    if pre == [] {
      assert pre + s == s;
    } else {
      assert (pre + s)[1..] == pre[1..] + s;
      TrimStartSkips(pre[1..], s);
    }
  }

  lemma {:induction false} TrimEndSkips(s: string, post: string)
    requires forall i :: 0 <= i < |post| ==> IsJsSpace(post[i])
    requires s != [] && !IsJsSpace(s[|s| - 1])
    ensures TrimEnd(s + post) == s
  {
    if post == [] {
      assert s + post == s;
    } else {
      var t := s + post;
      assert t[..|t| - 1] == s + post[..|post| - 1];
      TrimEndSkips(s, post[..|post| - 1]);
    }
  }

  /** Six characters are not always six code units: a code holding a
      character above U+FFFF, such as an emoji followed by five digits, has
      length 7 and is rejected. */
  lemma AstralCodeRejected(code: string)
    requires |code| == CodeLength && !IsJsSpace(code[0]) && !IsJsSpace(code[|code| - 1])
    requires code[0] as int >= 0x10000
    ensures !JoinCodeAccepted(code)
  {
    assert code[1..][1..][1..][1..][1..][1..] == [];
  }
}
