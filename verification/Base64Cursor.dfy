/** Page cursors (pagination.go:22-46): an id in the unpadded URL-safe alphabet of section 5 of RFC
    4648, decoded the lenient way the standard library does. */
module Base64Cursor {
  import opened Types

  /** The character of a 6-bit value. */
  function Char(v: bv8): bv8
    requires v < 64
  {
    if v < 26 then v + 65
    else if v < 52 then v - 26 + 97
    else if v < 62 then v - 52 + 48
    else if v == 62 then 45
    else 95
  }

  function Value(c: bv8): (v: Option<bv8>)
    ensures v.Some? ==> v.value < 64
  {
    if 65 <= c <= 90 then Some(c - 65)
    else if 97 <= c <= 122 then Some(c - 97 + 26)
    else if 48 <= c <= 57 then Some(c - 48 + 52)
    else if c == 45 then Some(62)
    else if c == 95 then Some(63)
    else None
  }

  // The four 6-bit values of three bytes; a missing byte counts as zero.

  function Sextet0(b0: bv8): (v: bv8) ensures v < 64 { b0 >> 2 }
  function Sextet1(b0: bv8, b1: bv8): (v: bv8) ensures v < 64 { ((b0 & 0x03) << 4) | (b1 >> 4) }
  function Sextet2(b1: bv8, b2: bv8): (v: bv8) ensures v < 64 { ((b1 & 0x0f) << 2) | (b2 >> 6) }
  function Sextet3(b2: bv8): (v: bv8) ensures v < 64 { b2 & 0x3f }

  // And the three bytes of four values.

  function Byte0(v0: bv8, v1: bv8): bv8 { (v0 << 2) | (v1 >> 4) }
  function Byte1(v1: bv8, v2: bv8): bv8 { (v1 << 4) | (v2 >> 2) }
  function Byte2(v2: bv8, v3: bv8): bv8 { (v2 << 6) | v3 }

  function Encode(b: Text): Text {
    if |b| == 0 then []
    else if |b| == 1 then [Char(Sextet0(b[0])), Char(Sextet1(b[0], 0))]
    else if |b| == 2 then [Char(Sextet0(b[0])), Char(Sextet1(b[0], b[1])), Char(Sextet2(b[1], 0))]
    else
      [Char(Sextet0(b[0])), Char(Sextet1(b[0], b[1])), Char(Sextet2(b[1], b[2])), Char(Sextet3(b[2]))]
      + Encode(b[3..])
  }

  predicate IsNewline(c: bv8) {
    c == 10 || c == 13
  }

  /** Line breaks are skipped wherever they occur. */
  function Strip(s: Text): Text {
    if s == [] then [] else (if IsNewline(s[0]) then [] else [s[0]]) + Strip(s[1..])
  }

  /** Four characters at a time; a last group of two or three gives one or two bytes, a single
      character or one outside the alphabet is an error. */
  function Groups(s: Text): Option<Text> {
    if s == [] then Some([])
    else if |s| == 1 then None
    else
      var v0, v1 := Value(s[0]), Value(s[1]);
      if v0.None? || v1.None? then None
      else
        var b0 := Byte0(v0.value, v1.value);
        if |s| == 2 then Some([b0])
        else
          var v2 := Value(s[2]);
          if v2.None? then None
          else
            var b1 := Byte1(v1.value, v2.value);
            if |s| == 3 then Some([b0, b1])
            else
              var v3 := Value(s[3]);
              var rest := Groups(s[4..]);
              if v3.None? || rest.None? then None
              else Some([b0, b1, Byte2(v2.value, v3.value)] + rest.value)
  }

  function Decode(s: Text): Option<Text> {
    Groups(Strip(s))
  }

  function EncodeCursor(lastId: Text): Text {
    Encode(lastId)
  }

  /** Any error reads as the empty cursor, that is, as the first page. */
  function DecodeCursor(s: Text): Text {
    if s == [] then []
    else
      match Decode(s)
      case Some(b) => b
      case None => []
  }

  // ---------------------------------------------------------------- round trip

  lemma CharValue(v: bv8)
    requires v < 64
    ensures Value(Char(v)) == Some(v) && !IsNewline(Char(v))
  {
  }

  lemma BytesBack(b0: bv8, b1: bv8, b2: bv8)
    ensures Byte0(Sextet0(b0), Sextet1(b0, b1)) == b0
    ensures Byte1(Sextet1(b0, b1), Sextet2(b1, b2)) == b1
    ensures Byte2(Sextet2(b1, b2), Sextet3(b2)) == b2
  {
  }

  lemma {:induction false} NoNewlines(b: Text)
    ensures forall i :: 0 <= i < |Encode(b)| ==> !IsNewline(Encode(b)[i])
  {
    if |b| >= 1 {
      CharValue(Sextet0(b[0]));
      CharValue(Sextet1(b[0], if |b| > 1 then b[1] else 0));
    }
    if |b| >= 2 {
      CharValue(Sextet2(b[1], if |b| > 2 then b[2] else 0));
    }
    if |b| >= 3 {
      CharValue(Sextet3(b[2]));
      NoNewlines(b[3..]);
    }
  }

  lemma {:induction false} StripNothing(s: Text)
    requires forall i :: 0 <= i < |s| ==> !IsNewline(s[i])
    ensures Strip(s) == s
  {
    if s != [] {
      StripNothing(s[1..]);
    }
  }

  lemma {:induction false} GroupsUndo(b: Text)
    ensures Groups(Encode(b)) == Some(b)
  {
    if b != [] {
      var b0 := b[0];
      var b1 := if |b| > 1 then b[1] else 0;
      var b2 := if |b| > 2 then b[2] else 0;
      BytesBack(b0, b1, b2);
      CharValue(Sextet0(b0));
      CharValue(Sextet1(b0, b1));
      CharValue(Sextet2(b1, b2));
      CharValue(Sextet3(b2));
      if |b| == 1 {
        assert b == [b0];
      } else if |b| == 2 {
        assert b == [b0, b1];
      } else {
        GroupsUndo(b[3..]);
        assert Encode(b)[4..] == Encode(b[3..]);
        assert b == [b0, b1, b2] + b[3..];
      }
    }
  }

  /** Main result: decoding undoes encoding on every byte string, and only the empty id has the empty
      cursor. */
  lemma CursorRoundTrip(id: Text)
    ensures DecodeCursor(EncodeCursor(id)) == id
    ensures EncodeCursor(id) == [] <==> id == []
  {
    NoNewlines(id);
    StripNothing(Encode(id));
    GroupsUndo(id);
  }

  // ---------------------------------------------------------------- what is accepted and produced

  /** Upper and lower case letters, digits, hyphen and underscore. */
  predicate InAlphabet(c: bv8) {
    65 <= c <= 90 || 97 <= c <= 122 || 48 <= c <= 57 || c == 45 || c == 95
  }

  predicate Acceptable(s: Text) {
    forall c :: c in s ==> InAlphabet(c)
  }

  lemma ValueExactly(c: bv8)
    ensures Value(c).Some? <==> InAlphabet(c)
  {
  }

  lemma AcceptableFour(s: Text)
    requires |s| >= 4
    ensures Acceptable(s) <==>
              InAlphabet(s[0]) && InAlphabet(s[1]) && InAlphabet(s[2]) && InAlphabet(s[3]) && Acceptable(s[4..])
  {
    assert s == [s[0], s[1], s[2], s[3]] + s[4..];
  }

  lemma GroupsShort(s: Text)
    requires |s| < 4
    ensures Groups(s).Some? <==> Acceptable(s) && |s| != 1
    ensures Groups(s).Some? ==> |Groups(s).value| == |s| * 3 / 4
  {
    forall i | 0 <= i < |s| ensures Value(s[i]).Some? <==> InAlphabet(s[i]) {
      ValueExactly(s[i]);
    }
  }

  lemma GroupsLong(s: Text)
    requires |s| >= 4
    ensures Groups(s).Some? <==>
              && InAlphabet(s[0]) && InAlphabet(s[1]) && InAlphabet(s[2]) && InAlphabet(s[3])
              && Groups(s[4..]).Some?
    ensures Groups(s).Some? ==> |Groups(s).value| == 3 + |Groups(s[4..]).value|
  {
    ValueExactly(s[0]);
    ValueExactly(s[1]);
    ValueExactly(s[2]);
    ValueExactly(s[3]);
  }

  lemma {:induction false} GroupsExactly(s: Text)
    ensures Groups(s).Some? <==> Acceptable(s) && |s| % 4 != 1
    ensures Groups(s).Some? ==> |Groups(s).value| == |s| * 3 / 4
  {
    if |s| < 4 {
      GroupsShort(s);
    } else {
      var rest := s[4..];
      GroupsExactly(rest);
      AcceptableFour(s);
      GroupsLong(s);
      assert |rest| % 4 == |s| % 4 && 3 + |rest| * 3 / 4 == |s| * 3 / 4;
    }
  }

  lemma {:induction false} StripKeeps(s: Text, c: bv8)
    ensures c in Strip(s) <==> c in s && !IsNewline(c)
  {
    if s != [] {
      StripKeeps(s[1..], c);
      assert c in s <==> c == s[0] || c in s[1..];
    }
  }

  /** Text is decoded exactly if it consists of characters of the alphabet and line breaks and, line breaks
      left out, its length leaves another remainder by four than one; six bits come from each character. */
  lemma {:induction false} DecodesExactly(s: Text)
    ensures Decode(s).Some? <==> (forall c :: c in s ==> c == 10 || c == 13 || InAlphabet(c)) && |Strip(s)| % 4 != 1
    ensures Decode(s).Some? ==> |Decode(s).value| == |Strip(s)| * 3 / 4
  {
    GroupsExactly(Strip(s));
    forall c ensures c in Strip(s) <==> c in s && !IsNewline(c) {
      StripKeeps(s, c);
    }
  }

  /** A line break anywhere makes no difference. */
  lemma {:induction false} LineBreakIgnored(a: Text, c: bv8, b: Text)
    requires c == 10 || c == 13
    ensures Strip(a + [c] + b) == Strip(a + b)
    ensures DecodeCursor(a + [c] + b) == DecodeCursor(a + b)
  {
    if a == [] {
      assert [] + [c] + b == [c] + b && [] + b == b;
    } else {
      LineBreakIgnored(a[1..], c, b);
      assert (a + [c] + b)[1..] == a[1..] + [c] + b && (a + b)[1..] == a[1..] + b;
    }
  }

  /** A cursor is made of the alphabet alone, without padding: four characters for three bytes. */
  lemma {:induction false} CursorText(id: Text)
    ensures Acceptable(EncodeCursor(id)) && |EncodeCursor(id)| == (|id| * 4 + 2) / 3
  {
    GroupsUndo(id);
    GroupsExactly(EncodeCursor(id));
    if |id| >= 3 {
      CursorText(id[3..]);
    }
  }

  /** The vectors of section 10 of RFC 4648, without their padding, and the two characters that tell the URL-safe
      alphabet from the plain one. */
  lemma Vectors()
    ensures Encode([102]) == [90, 103] && Encode([102, 111]) == [90, 109, 56]
    ensures Encode([102, 111, 111]) == [90, 109, 57, 118]
    ensures Encode([102, 111, 111, 98, 97, 114]) == [90, 109, 57, 118, 89, 109, 70, 121]
    ensures Encode([251, 255]) == [45, 95, 56]
  {
    assert [102, 111, 111, 98, 97, 114][3..] == [98, 97, 114];
  }
}
