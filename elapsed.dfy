/** The elapsed-time display `hh:mm:ss` of the recorder. */
module Elapsed {

  /** The decimal digit character for `d`. */
  function DigitChar(d: nat): char
    requires d < 10
  {
    ('0' as int + d) as char
  }

  predicate IsDigit(c: char)
  {
    '0' <= c <= '9'
  }

  function DigitValue(c: char): int
  {
    c as int - '0' as int
  }

  /** The decimal text of a non-negative integer, as JavaScript prints it. */
  function DecimalString(n: nat): (s: string)
    ensures |s| >= 1
    decreases n
  {
    if n < 10 then [DigitChar(n)] else DecimalString(n / 10) + [DigitChar(n % 10)]
  }

  /** `('0' + n).slice(-2)`: the last two characters of `n` written after a zero. */
  function Pad2(n: nat): string
  {
    var padded := "0" + DecimalString(n);
    padded[|padded| - 2..]
  }

  /** The value of a two-character decimal field. */
  function TwoDigitValue(s: string): int
    requires |s| == 2
  {
    10 * DigitValue(s[0]) + DigitValue(s[1])
  }

  /** The display of an elapsed time in milliseconds: hours, minutes and seconds, each
      taken modulo 60 and shown in two characters. */
  function ElapsedDisplay(time: nat): string
  {
    Pad2(time / 3600000 % 60) + ":" + Pad2(time / 60000 % 60) + ":" + Pad2(time / 1000 % 60)
  }

  /** The last character of the decimal text is the last digit. */
  lemma LastDigit(n: nat)
    ensures DecimalString(n)[|DecimalString(n)| - 1] == DigitChar(n % 10)
  {
  }

  /** The tens digit of `n` and its units digit make up `n` modulo 100. */
  lemma TwoLastDigits(n: nat)
    ensures 10 * (n / 10 % 10) + n % 10 == n % 100
  {
    var a, b, c := n / 100, n / 10 % 10, n % 10;
    assert n / 10 == 10 * a + b;
    assert n == 100 * a + (10 * b + c);
  }

  /** A padded field is two digits whose value is `n` modulo 100; below 100 it is `n` itself. */
  lemma Pad2Value(n: nat)
    ensures |Pad2(n)| == 2
    ensures IsDigit(Pad2(n)[0]) && IsDigit(Pad2(n)[1])
    ensures TwoDigitValue(Pad2(n)) == n % 100
  {
    var padded := "0" + DecimalString(n);
    LastDigit(n);
    if n >= 10 {
      LastDigit(n / 10);
      assert padded[|padded| - 2] == DigitChar(n / 10 % 10);
      TwoLastDigits(n);
    }
  }

  /** Three two-character fields joined with colons sit at positions 0, 3 and 6. */
  lemma ColonJoined(a: string, b: string, c: string)
    requires |a| == 2 && |b| == 2 && |c| == 2
    ensures |a + ":" + b + ":" + c| == 8
    ensures (a + ":" + b + ":" + c)[2] == ':' && (a + ":" + b + ":" + c)[5] == ':'
    ensures (a + ":" + b + ":" + c)[0..2] == a
    ensures (a + ":" + b + ":" + c)[3..5] == b
    ensures (a + ":" + b + ":" + c)[6..8] == c
  {
  }

  /** Three padded fields joined with colons read back as their values modulo 100. */
  lemma PaddedFieldsRead(h: nat, m: nat, s: nat)
    ensures |Pad2(h) + ":" + Pad2(m) + ":" + Pad2(s)| == 8
    ensures (Pad2(h) + ":" + Pad2(m) + ":" + Pad2(s))[2] == ':'
    ensures (Pad2(h) + ":" + Pad2(m) + ":" + Pad2(s))[5] == ':'
    ensures TwoDigitValue((Pad2(h) + ":" + Pad2(m) + ":" + Pad2(s))[0..2]) == h % 100
    ensures TwoDigitValue((Pad2(h) + ":" + Pad2(m) + ":" + Pad2(s))[3..5]) == m % 100
    ensures TwoDigitValue((Pad2(h) + ":" + Pad2(m) + ":" + Pad2(s))[6..8]) == s % 100
  {
    Pad2Value(h);
    Pad2Value(m);
    Pad2Value(s);
    ColonJoined(Pad2(h), Pad2(m), Pad2(s));
  }

  /** The display is `hh:mm:ss` and each field reads back as its component of the time. */
  lemma ElapsedDisplayFields(time: nat)
    ensures |ElapsedDisplay(time)| == 8
    ensures ElapsedDisplay(time)[2] == ':' && ElapsedDisplay(time)[5] == ':'
    ensures TwoDigitValue(ElapsedDisplay(time)[0..2]) == time / 3600000 % 60
    ensures TwoDigitValue(ElapsedDisplay(time)[3..5]) == time / 60000 % 60
    ensures TwoDigitValue(ElapsedDisplay(time)[6..8]) == time / 1000 % 60
  {
    PaddedFieldsRead(time / 3600000 % 60, time / 60000 % 60, time / 1000 % 60);
  }

  /** Every character of the display other than the two colons is a decimal digit. */
  lemma ElapsedDisplayDigits(time: nat)
    ensures |ElapsedDisplay(time)| == 8
    ensures IsDigit(ElapsedDisplay(time)[0]) && IsDigit(ElapsedDisplay(time)[1])
    ensures IsDigit(ElapsedDisplay(time)[3]) && IsDigit(ElapsedDisplay(time)[4])
    ensures IsDigit(ElapsedDisplay(time)[6]) && IsDigit(ElapsedDisplay(time)[7])
  {
    var h, m, s := time / 3600000 % 60, time / 60000 % 60, time / 1000 % 60;
    Pad2Value(h);
    Pad2Value(m);
    Pad2Value(s);
    ColonJoined(Pad2(h), Pad2(m), Pad2(s));
  }

  /** After `k` one-second ticks the display shows `k` seconds as hours, minutes and
      seconds, the hours wrapping at 60. */
  lemma ElapsedAfterTicks(k: nat)
    ensures TwoDigitValue(ElapsedDisplay(1000 * k)[0..2]) == k / 3600 % 60
    ensures TwoDigitValue(ElapsedDisplay(1000 * k)[3..5]) == k / 60 % 60
    ensures TwoDigitValue(ElapsedDisplay(1000 * k)[6..8]) == k % 60
  {
    ElapsedDisplayFields(1000 * k);
    assert (1000 * k) / 3600000 == k / 3600;
    assert (1000 * k) / 60000 == k / 60;
    assert (1000 * k) / 1000 == k;
  }
}
