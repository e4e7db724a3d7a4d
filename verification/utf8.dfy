/** The rune decoding behind Go's `for _, r := range s` over a string of bytes.
    Each char of a Dafny string stands for one byte. Decoding follows Go's
    UTF-8 acceptance table: an invalid or truncated sequence yields the
    replacement rune U+FFFD and advances a single byte. */
module Utf8 {

  const RuneError: int := 0xFFFD

  predicate IsContinuation(b: int) {
    0x80 <= b <= 0xBF
  }

  /** The rune starting at byte `i` and the number of bytes it spans. */
  function DecodeRune(s: string, i: nat): (d: (int, nat))
    requires i < |s|
    ensures 1 <= d.1 <= 4 && i + d.1 <= |s|
    ensures s[i] as int < 0x80 ==> d == (s[i] as int, 1)
    ensures s[i] as int >= 0x80 ==> d.0 >= 0x80
    ensures forall j :: i < j < i + d.1 ==> s[j] as int >= 0x80
  {
    var b0 := s[i] as int;
    if b0 < 0x80 then (b0, 1)
    else if b0 < 0xC2 || b0 > 0xF4 then (RuneError, 1)
    else
      var size := if b0 <= 0xDF then 2 else if b0 <= 0xEF then 3 else 4;
      var lo := if b0 == 0xE0 then 0xA0 else if b0 == 0xF0 then 0x90 else 0x80;
      var hi := if b0 == 0xED then 0x9F else if b0 == 0xF4 then 0x8F else 0xBF;
      if |s| - i < size then (RuneError, 1)
      else
        var b1 := s[i + 1] as int;
        if b1 < lo || hi < b1 then (RuneError, 1)
        else if size == 2 then ((b0 - 0xC0) * 0x40 + (b1 - 0x80), 2)
        else
          var b2 := s[i + 2] as int;
          if !IsContinuation(b2) then (RuneError, 1)
          else if size == 3 then ((b0 - 0xE0) * 0x1000 + (b1 - 0x80) * 0x40 + (b2 - 0x80), 3)
          else
            var b3 := s[i + 3] as int;
            if !IsContinuation(b3) then (RuneError, 1)
            else ((b0 - 0xF0) * 0x4_0000 + (b1 - 0x80) * 0x1000 + (b2 - 0x80) * 0x40 + (b3 - 0x80), 4)
  }
}
