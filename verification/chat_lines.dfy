/** What the lines of a chat session mean, said without the parser:
    examples/chat-server/src/main.rs 146-171. */
module ChatLines {
  import opened Wire
  import opened ChatSpec

  predicate Blank(s: string) {
    forall k | 0 <= k < |s| :: IsWhitespace(s[k])
  }

  predicate Word(s: string) {
    s != "" && forall k | 0 <= k < |s| :: !IsWhitespace(s[k])
  }

  /** Nothing, or whitespace and anything. */
  predicate Tail(s: string) {
    s == "" || IsWhitespace(s[0])
  }

  /** In ASCII the whitespace is the tab, the line and page breaks and the space. */
  lemma AsciiWhitespace(c: char)
    requires c as int < 128
    ensures IsWhitespace(c) <==> c as int in {9, 10, 11, 12, 13, 32}
  {
  }

  predicate Slash(text: string) {
    text != "" && text[0] == '/'
  }

  /** `text` is "/join", whitespace, the word `room`, and a tail. */
  ghost predicate AsksFor(text: string, room: string) {
    Word(room) && exists gap, tail :: gap != "" && Blank(gap) && Tail(tail) && text == "/join" + gap + room + tail
  }

  /** `text` is "/join" and nothing but whitespace. */
  ghost predicate AsksForNothing(text: string) {
    exists gap :: Blank(gap) && text == "/join" + gap
  }

  // ----- Words -----

  lemma {:induction false} SkipBlank(gap: string, s: string)
    requires Blank(gap) && (s == "" || !IsWhitespace(s[0]))
    ensures SkipSpace(gap + s) == s
  {
    if gap == "" {
      assert gap + s == s;
    } else {
      assert (gap + s)[1..] == gap[1..] + s;
      SkipBlank(gap[1..], s);
    }
  }

  lemma {:induction false} WordEnds(w: string, tail: string)
    requires (forall k | 0 <= k < |w| :: !IsWhitespace(w[k])) && Tail(tail)
    ensures WordLength(w + tail) == |w|
  {
    if w == "" {
      assert w + tail == tail;
    } else {
      assert (w + tail)[1..] == w[1..] + tail;
      WordEnds(w[1..], tail);
    }
  }

  lemma FoundWord(gap: string, w: string, tail: string)
    requires Blank(gap) && Word(w) && Tail(tail)
    ensures NextWord(gap + w + tail) == Some((w, tail))
  {
    assert gap + w + tail == gap + (w + tail);
    SkipBlank(gap, w + tail);
    WordEnds(w, tail);
    assert (w + tail)[..|w|] == w && (w + tail)[|w|..] == tail;
  }

  lemma NoWord(gap: string)
    requires Blank(gap)
    ensures NextWord(gap).None?
  {
    SkipBlank(gap, "");
    assert gap + "" == gap;
  }

  /** Every string is whitespace, and perhaps a word and a tail. */
  lemma {:induction false} Split(s: string) returns (gap: string, rest: string)
    ensures s == gap + rest && Blank(gap) && (rest == "" || !IsWhitespace(rest[0]))
  {
    if s != "" && IsWhitespace(s[0]) {
      gap, rest := Split(s[1..]);
      gap := [s[0]] + gap;
    } else {
      gap, rest := "", s;
    }
  }

  lemma {:induction false} Break(s: string) returns (w: string, tail: string)
    ensures s == w + tail && Tail(tail) && (forall k | 0 <= k < |w| :: !IsWhitespace(w[k]))
    ensures s != "" && !IsWhitespace(s[0]) ==> w != ""
  {
    if s == "" || IsWhitespace(s[0]) {
      w, tail := "", s;
    } else {
      w, tail := Break(s[1..]);
      w := [s[0]] + w;
    }
  }

  // ----- Lines -----

  lemma JoinParses(text: string, room: string)
    requires AsksFor(text, room)
    ensures Slash(text) && Parse(text) == GoTo(room)
  {
    var gap, tail :| gap != "" && Blank(gap) && Tail(tail) && text == "/join" + gap + room + tail;
    var rest := gap + room + tail;
    assert text == "" + "/join" + rest;
    FoundWord("", "/join", rest);
    FoundWord(gap, room, tail);
  }

  lemma BareJoinParses(text: string)
    requires AsksForNothing(text)
    ensures Slash(text) && Parse(text) == MissingRoom
  {
    var gap :| Blank(gap) && text == "/join" + gap;
    assert text == "" + "/join" + gap;
    FoundWord("", "/join", gap);
    NoWord(gap);
  }

  lemma JoinFound(text: string, gap: string, rest: string)
    requires text == "/join" + (gap + rest) && Blank(gap) && rest != "" && !IsWhitespace(rest[0])
    requires Tail(gap + rest) && NextWord(text) == Some(("/join", gap + rest)) && Slash(text)
    ensures Parse(text).GoTo? && AsksFor(text, Parse(text).room)
  {
    var room, tail := Break(rest);
    FoundWord(gap, room, tail);
    assert gap + rest == gap + room + tail;
    assert gap == "" ==> gap + rest == rest;
    assert text == "/join" + gap + room + tail;
  }

  /** What the parser finds in a line with a slash is there. */
  lemma ParsedJoin(text: string)
    requires Slash(text)
    ensures match Parse(text)
            case GoTo(room) => AsksFor(text, room)
            case MissingRoom => AsksForNothing(text)
            case Unrecognized => true
            case _ => false
  {
    var command, after := Break(text);
    assert text == "" + command + after;
    FoundWord("", command, after);
    if command == "/join" {
      var gap, rest := Split(after);
      if rest == "" {
        assert gap + rest == gap;
        NoWord(gap);
        assert Blank(gap) && text == "/join" + gap;
      } else {
        JoinFound(text, gap, rest);
      }
    }
  }

  /** A line without a slash is said; one with a slash never is.  It asks for a
      room exactly if it reads so, panics exactly if "/join" stands alone, and
      otherwise means nothing. */
  lemma LineMeaning(text: string)
    ensures !Slash(text) <==> Parse(text) == Say(text)
    ensures Slash(text) <==> !Parse(text).Say?
    ensures !Parse(text).NoCommand?
    ensures forall room :: Parse(text) == GoTo(room) <==> AsksFor(text, room)
    ensures Parse(text).MissingRoom? <==> AsksForNothing(text)
    ensures Parse(text).Unrecognized? <==>
              Slash(text) && !AsksForNothing(text) && forall room :: !AsksFor(text, room)
  {
    if Slash(text) { ParsedJoin(text); }
    forall room ensures Parse(text) == GoTo(room) <==> AsksFor(text, room) {
      if AsksFor(text, room) { JoinParses(text, room); }
    }
    if AsksForNothing(text) { BareJoinParses(text); }
  }

  // ----- Numbers -----

  predicate Digit(c: char) {
    '0' <= c <= '9'
  }

  /** What a numeral reads as. */
  function Value(d: string): nat {
    if d == "" then 0
    else Value(d[..|d| - 1]) * 10 + (if Digit(d[|d| - 1]) then d[|d| - 1] as int - '0' as int else 0)
  }

  /** `d` is the numeral of `n`: digits only, none of them a needless zero. */
  predicate Numeral(d: string, n: nat) {
    && d != "" && (forall k | 0 <= k < |d| :: Digit(d[k]))
    && Value(d) == n
    && (d[0] == '0' ==> d == "0")
  }

  lemma {:induction false} DecimalReads(n: nat)
    ensures Numeral(Decimal(n), n)
    ensures n > 0 ==> Decimal(n)[0] != '0'
  {
    var digit := ["0", "1", "2", "3", "4", "5", "6", "7", "8", "9"][n % 10];
    assert |digit| == 1 && Digit(digit[0]) && digit[0] as int - '0' as int == n % 10;
    if n < 10 {
      assert digit[..0] == "" && Value(digit) == n;
    } else {
      DecimalReads(n / 10);
      var d := Decimal(n);
      assert d == Decimal(n / 10) + digit && d[..|d| - 1] == Decimal(n / 10);
    }
  }

  /** The greeting that a Join of `room` by `id` sends. */
  ghost predicate Greets(text: string, id: nat, room: string) {
    exists d :: Numeral(d, id) && text == "User with ID: " + d + " just joined " + room + " room"
  }

  lemma GreetingGreets(id: nat, room: string)
    ensures Greets(Greeting(id, room), id, room)
  {
    DecimalReads(id);
    assert Numeral(Decimal(id), id);
  }
}
