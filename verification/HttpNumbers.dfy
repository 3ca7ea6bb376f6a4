/** Numbers and words as they are written: what is written is what is read. */
module HttpNumbers {
  import opened HttpTypes
  import opened HttpBody
  import opened HttpRecognisers

  // ----- numbers

  const LOW := "0123456789abcdef"
  const HIGH := "0123456789ABCDEF"

  /** The number in hexadecimal digits, with letters of either case. */
  function HexText(n: nat, high: bool): (s: string)
    ensures s != ""
  {
    var last := [(if high then HIGH else LOW)[n % 16]];
    if n < 16 then last else HexText(n / 16, high) + last
  }

  function DecText(n: nat): (s: string)
    ensures s != ""
  {
    var last := [LOW[n % 10]];
    if n < 10 then last else DecText(n / 10) + last
  }

  lemma HexDigit(k: nat, high: bool)
    requires k < 16
    ensures Unhex((if high then HIGH else LOW)[k]) == k
  {
    if k < 8 {
      assert k == 0 || k == 1 || k == 2 || k == 3 || k == 4 || k == 5 || k == 6 || k == 7;
    } else {
      assert k == 8 || k == 9 || k == 10 || k == 11 || k == 12 || k == 13 || k == 14 || k == 15;
    }
  }

  lemma DecDigit(k: nat)
    requires k < 10
    ensures IsNum(LOW[k]) && Digit(LOW[k]) == k
  {
    assert k == 0 || k == 1 || k == 2 || k == 3 || k == 4 || k == 5 || k == 6 || k == 7 || k == 8 || k == 9;
  }

  lemma {:induction false} HexAppend(v: nat, s: string, c: char)
    requires HexDigits(s) && Unhex(c) >= 0
    ensures HexDigits(s + [c]) && HexFrom(v, s + [c]) == HexFrom(v, s) * 16 + Unhex(c)
    decreases |s|
  {
    hide Unhex;
    if s == "" {
      assert s + [c] == [c] && [c][1..] == "";
    } else {
      assert (s + [c])[0] == s[0] && (s + [c])[1..] == s[1..] + [c];
      HexAppend(v * 16 + Unhex(s[0]), s[1..], c);
    }
  }

  lemma {:induction false} DecAppend(v: nat, s: string, c: char)
    requires LengthBytes(s) && IsNum(c)
    ensures LengthBytes(s + [c]) && DecFrom(v, s + [c]) == DecFrom(v, s) * 10 + Digit(c)
    decreases |s|
  {
    if s == "" {
      assert s + [c] == [c] && [c][1..] == "";
    } else {
      assert (s + [c])[0] == s[0] && (s + [c])[1..] == s[1..] + [c];
      DecAppend(if IsNum(s[0]) then v * 10 + Digit(s[0]) else v, s[1..], c);
    }
  }

  /** A number written in hexadecimal is read as that number, */
  lemma {:induction false} HexReadBack(n: nat, high: bool)
    ensures HexDigits(HexText(n, high)) && HexFrom(0, HexText(n, high)) == n
    decreases n
  {
    hide Unhex;
    var d := (if high then HIGH else LOW)[n % 16];
    HexDigit(n % 16, high);
    if n < 16 {
      assert "" + [d] == [d];
      HexAppend(0, "", d);
    } else {
      HexReadBack(n / 16, high);
      HexAppend(0, HexText(n / 16, high), d);
    }
  }

  /** and so is one in decimal. */
  lemma {:induction false} DecReadBack(n: nat)
    ensures LengthBytes(DecText(n)) && DecFrom(0, DecText(n)) == n
    decreases n
  {
    var d := LOW[n % 10];
    DecDigit(n % 10);
    hide IsNum, Digit;
    if n < 10 {
      assert "" + [d] == [d];
      DecAppend(0, "", d);
    } else {
      DecReadBack(n / 10);
      DecAppend(0, DecText(n / 10), d);
    }
  }

  // ----- words

  /** The same letter in either case, or the same byte; d is no capital. */
  predicate SameLetter(c: char, d: char) {
    c == d || ('A' <= c <= 'Z' && c as int - 'A' as int == d as int - 'a' as int)
  }

  predicate NoCapitals(w: string) { forall i :: 0 <= i < |w| ==> !('A' <= w[i] <= 'Z') }

  /** A header name is recognised in any case, and no other is. */
  lemma {:induction false} NameInAnyCase(name: string, w: string)
    requires NoCapitals(w)
    ensures Lowered(name) == w <==> |name| == |w| && forall i :: 0 <= i < |w| ==> SameLetter(name[i], w[i])
    decreases |name|
  {
    if name != "" && w != "" {
      var rest := Lowered(name[1..]);
      assert Lowered(name)[0] == ToLower(name[0]) && Lowered(name)[1..] == rest;
      assert Lowered(name) == w <==> ToLower(name[0]) == w[0] && rest == w[1..] by {
        if ToLower(name[0]) == w[0] && rest == w[1..] {
          assert w == [w[0]] + w[1..];
        }
      }
      NameInAnyCase(name[1..], w[1..]);
      assert ToLower(name[0]) == w[0] <==> SameLetter(name[0], w[0]);
      assert forall i :: 0 < i < |w| && i < |name| ==> w[i] == w[1..][i - 1] && name[i] == name[1..][i - 1];
    }
  }

  /** So are the words of a value, with nothing but spaces behind them. */
  lemma ValueInAnyCase(v: string, w: string)
    requires OneLine(v) && forall i :: 0 <= i < |w| ==> 'a' <= w[i] <= 'z' || w[i] == '-'
    ensures Spells(v, w) <==>
              && |w| <= |v| && (forall i :: 0 <= i < |w| ==> SameLetter(v[i], w[i]))
              && forall i :: |w| <= i < |v| ==> v[i] == ' '
  {
    forall i | 0 <= i < |w| && i < |v|
      ensures Lower(v[i]) == w[i] as int <==> SameLetter(v[i], w[i])
    {
      assert v[i] != CR;
    }
    hide Lower, SameLetter;
  }

  /** The bytes of a token, as section 2.2 of RFC 2616 leaves them over. */
  lemma TokenListed(c: char)
    ensures IsToken(c) <==> IsAlpha(c) || IsNum(c) || c in "!#$%&'*+-.^_`|~"
  {
  }
}
