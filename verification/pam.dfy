/** Editing a PAM stack text (crates/elanprint-keyring-setup/src/pam.rs, preflight.rs). */
module Pam {
  import opened Core

  const MODULE := "pam_elanprint_keyring.so"
  const KEYRING := "pam_gnome_keyring.so"
  const CONTROL := "auth\toptional\t"
  const LINE := CONTROL + MODULE

  // ---------- line predicates ----------

  /** The Unicode White_Space property. */
  predicate IsWhite(c: char) {
    var n := c as int;
    0x09 <= n <= 0x0d || n == 0x20 || n == 0x85 || n == 0xa0 || n == 0x1680 || 0x2000 <= n <= 0x200a
    || n == 0x2028 || n == 0x2029 || n == 0x202f || n == 0x205f || n == 0x3000
  }

  function TrimStart(s: string): string {
    if s != [] && IsWhite(s[0]) then TrimStart(s[1..]) else s
  }

  predicate OccursAt(s: string, sub: string, i: nat) {
    i + |sub| <= |s| && s[i..i + |sub|] == sub
  }

  predicate Contains(s: string, sub: string) {
    exists i: nat :: i <= |s| && OccursAt(s, sub, i)
  }

  /** The leading run of non-white characters. */
  function FirstWord(s: string): string {
    if s == [] || IsWhite(s[0]) then [] else [s[0]] + FirstWord(s[1..])
  }

  predicate IsComment(trimmed: string) {
    trimmed != [] && trimmed[0] == '#'
  }

  predicate IsOurLine(line: string) {
    var t := TrimStart(line);
    !IsComment(t) && Contains(t, MODULE)
  }

  predicate IsKeyringAuth(line: string) {
    var t := TrimStart(line);
    !IsComment(t) && FirstWord(t) == "auth" && Contains(t, KEYRING)
  }

  lemma OurLineIsOurs()
    ensures IsOurLine(LINE)
    ensures LINE[|LINE| - 1] != '\r' && '\n' !in LINE
  {
    assert LINE[|CONTROL|..] == MODULE;
    LeadingText(CONTROL, MODULE);
    assert '\n' !in CONTROL && '\n' !in MODULE;
  }

  lemma LeadingText(head: string, tail: string)
    requires head != [] && !IsWhite(head[0]) && head[0] != '#'
    ensures TrimStart(head + tail) == head + tail && !IsComment(head + tail) && Contains(head + tail, tail)
  {
    assert OccursAt(head + tail, tail, |head|);
  }

  // ---------- lines ----------

  function FirstNewline(text: string): (i: nat)
    ensures i <= |text|
    ensures '\n' !in text[..i]
    ensures i < |text| ==> text[i] == '\n'
  {
    if text == [] || text[0] == '\n' then 0
    else
      var i := FirstNewline(text[1..]);
      assert text[..i + 1] == [text[0]] + text[1..][..i];
      i + 1
  }

  function StripCr(line: string): string {
    if line != [] && line[|line| - 1] == '\r' then line[..|line| - 1] else line
  }

  /** str::lines: a carriage return goes only together with its newline. */
  function Lines(text: string): (ls: seq<string>)
    ensures forall l :: l in ls ==> '\n' !in l
    decreases |text|
  {
    var i := FirstNewline(text);
    if text == [] then []
    else if i == |text| then
      assert text[..i] == text;
      [text]
    else
      [StripCr(text[..i])] + Lines(text[i + 1..])
  }

  function Join(ls: seq<string>): string {
    if ls == [] then []
    else if |ls| == 1 then ls[0]
    else ls[0] + "\n" + Join(ls[1..])
  }

  function Finished(ls: seq<string>): string {
    Join(ls) + "\n"
  }

  function FindFrom(ls: seq<string>, i: nat): (at: nat)
    requires i <= |ls|
    ensures i <= at <= |ls|
    ensures forall j :: i <= j < at ==> !IsKeyringAuth(ls[j])
    ensures at < |ls| ==> IsKeyringAuth(ls[at])
    decreases |ls| - i
  {
    if i == |ls| || IsKeyringAuth(ls[i]) then i else FindFrom(ls, i + 1)
  }

  predicate AnyOurs(ls: seq<string>) {
    exists i :: 0 <= i < |ls| && IsOurLine(ls[i])
  }

  function NotOurs(ls: seq<string>): seq<string> {
    if ls == [] then []
    else (if IsOurLine(ls[0]) then [] else [ls[0]]) + NotOurs(ls[1..])
  }

  // ---------- the two edits ----------

  datatype Change = Added(text: string) | AlreadyPresent | NoAnchor

  function WithLine(ls: seq<string>, at: nat): seq<string>
    requires at <= |ls|
  {
    ls[..at] + [LINE] + ls[at..]
  }

  function Insert(text: string): Change {
    var ls := Lines(text);
    if AnyOurs(ls) then AlreadyPresent
    else
      var at := FindFrom(ls, 0);
      if at == |ls| then NoAnchor else Added(Finished(WithLine(ls, at)))
  }

  function Remove(text: string): Option<string> {
    var ls := Lines(text);
    if AnyOurs(ls) then Some(Finished(NotOurs(ls))) else None
  }

  // ---------- splitting what was joined ----------

  /** Every line followed by a newline. */
  function Ended(ls: seq<string>): string {
    if ls == [] then [] else ls[0] + "\n" + Ended(ls[1..])
  }

  function Stripped(ls: seq<string>): seq<string> {
    if ls == [] then [] else [StripCr(ls[0])] + Stripped(ls[1..])
  }

  lemma {:induction false} FinishedIsEnded(ls: seq<string>)
    requires ls != []
    ensures Finished(ls) == Ended(ls)
  {
    if |ls| > 1 {
      FinishedIsEnded(ls[1..]);
      assert Join(ls) + "\n" == ls[0] + "\n" + (Join(ls[1..]) + "\n");
    } else {
      assert ls[1..] == [];
    }
  }

  lemma FirstNewlineOf(l: string, rest: string)
    requires '\n' !in l
    ensures FirstNewline(l + "\n" + rest) == |l|
  {
    var text := l + "\n" + rest;
    var i := FirstNewline(text);
    assert text[|l|] == '\n';
    assert forall k :: 0 <= k < |l| ==> text[k] == l[k];
    assert forall k :: 0 <= k < i ==> text[k] in text[..i];
  }

  lemma {:induction false} LinesOfEnded(ls: seq<string>)
    requires forall l :: l in ls ==> '\n' !in l
    ensures Lines(Ended(ls)) == Stripped(ls)
  {
    if ls != [] {
      var text := Ended(ls);
      FirstNewlineOf(ls[0], Ended(ls[1..]));
      assert text[..|ls[0]|] == ls[0];
      assert text[|ls[0]| + 1..] == Ended(ls[1..]);
      LinesOfEnded(ls[1..]);
    }
  }

  predicate EndsInNewline(text: string) {
    text != [] && text[|text| - 1] == '\n'
  }

  predicate HasCrLf(text: string) {
    exists i :: 0 <= i < |text| - 1 && text[i] == '\r' && text[i + 1] == '\n'
  }

  /** A text of newline-terminated lines without carriage-return newlines is exactly its lines. */
  lemma {:induction false} CleanTextIsItsLines(text: string)
    requires (text == [] || EndsInNewline(text)) && !HasCrLf(text)
    ensures Ended(Lines(text)) == text && Stripped(Lines(text)) == Lines(text)
    decreases |text|
  {
    if text != [] {
      var i := FirstNewline(text);
      var rest := text[i + 1..];
      assert text[..i] + "\n" + rest == text;
      assert StripCr(text[..i]) == text[..i];
      CrLfStays(text, i + 1);
      CleanTextIsItsLines(rest);
    }
  }

  lemma CrLfStays(text: string, k: nat)
    requires k <= |text|
    ensures HasCrLf(text[k..]) ==> HasCrLf(text)
  {
  }

  /** Splitting never lengthens a newline-terminated text, and a carriage-return newline shortens it. */
  lemma {:induction false} SplittingShortens(text: string)
    requires text == [] || EndsInNewline(text)
    ensures |Ended(Lines(text))| <= |text|
    ensures HasCrLf(text) ==> |Ended(Lines(text))| < |text|
    decreases |text|
  {
    if text != [] {
      var i := FirstNewline(text);
      var rest := text[i + 1..];
      assert text[|text| - 1] == '\n' && i < |text|;
      assert rest == [] || rest[|rest| - 1] == text[|text| - 1];
      SplittingShortens(rest);
      if HasCrLf(text) {
        CrLfIsHereOrLater(text);
      }
    }
  }

  lemma CrLfIsHereOrLater(text: string)
    requires HasCrLf(text) && FirstNewline(text) < |text|
    ensures
      var i := FirstNewline(text);
      (i > 0 && text[i - 1] == '\r') || HasCrLf(text[i + 1..])
  {
  }

  lemma {:induction false} EndedJoin(a: seq<string>, b: seq<string>)
    ensures Ended(a + b) == Ended(a) + Ended(b)
  {
    if a == [] {
      assert a + b == b;
    } else {
      EndedJoin(a[1..], b);
      assert (a + b)[1..] == a[1..] + b;
      assert (a[0] + "\n") + (Ended(a[1..]) + Ended(b)) == a[0] + "\n" + Ended(a[1..]) + Ended(b);
    }
  }

  lemma {:induction false} StrippedJoin(a: seq<string>, b: seq<string>)
    ensures Stripped(a + b) == Stripped(a) + Stripped(b)
  {
    hide StripCr;
    if a == [] {
      assert a + b == b;
    } else {
      StrippedJoin(a[1..], b);
      assert (a + b)[1..] == a[1..] + b;
    }
  }

  lemma NotOursCons(line: string, rest: seq<string>)
    ensures NotOurs([]) == []
    ensures NotOurs([line] + rest) == (if IsOurLine(line) then [] else [line]) + NotOurs(rest)
  {
    hide IsOurLine;
    assert ([line] + rest)[1..] == rest;
  }

  lemma {:induction false} NotOursJoin(a: seq<string>, b: seq<string>)
    ensures NotOurs(a + b) == NotOurs(a) + NotOurs(b)
  {
    hide IsOurLine, NotOurs;
    if a == [] {
      NotOursCons([], []);
      assert a + b == b;
    } else {
      NotOursJoin(a[1..], b);
      NotOursCons(a[0], a[1..]);
      NotOursCons(a[0], a[1..] + b);
      assert a == [a[0]] + a[1..];
      assert a + b == [a[0]] + (a[1..] + b);
    }
  }

  lemma {:induction false} KeptShorter(ls: seq<string>)
    ensures |Ended(NotOurs(Stripped(ls)))| <= |Ended(ls)|
  {
    if ls != [] {
      KeptShorter(ls[1..]);
      var head := if IsOurLine(StripCr(ls[0])) then [] else [StripCr(ls[0])];
      assert Stripped(ls)[1..] == Stripped(ls[1..]);
      EndedJoin(head, NotOurs(Stripped(ls[1..])));
    }
  }

  lemma {:induction false} NoneOurs(ls: seq<string>)
    requires !AnyOurs(ls)
    ensures NotOurs(ls) == ls
  {
    if ls != [] {
      assert !IsOurLine(ls[0]);
      forall i | 0 <= i < |ls[1..]|
        ensures !IsOurLine(ls[1..][i])
      {
        assert ls[1..][i] == ls[i + 1];
      }
      NoneOurs(ls[1..]);
    }
  }

  // ---------- the edits together ----------

  predicate LandsAt(ls: seq<string>, out: string, at: nat) {
    && at < |ls| && IsKeyringAuth(ls[at]) && (forall j :: 0 <= j < at ==> !IsKeyringAuth(ls[j]))
    && out == Ended(ls[..at] + [LINE] + ls[at..])
    && Lines(out) == Stripped(ls[..at]) + [LINE] + Stripped(ls[at..])
  }

  /** What an added line does to the lines: it lands directly above the first keyring auth line. */
  lemma InsertPlacesTheLine(text: string)
    requires Insert(text).Added?
    ensures exists at :: LandsAt(Lines(text), Insert(text).text, at)
  {
    hide IsKeyringAuth, IsOurLine, Lines;
    var ls := Lines(text);
    var at := FindFrom(ls, 0);
    LinesWithLine(ls, at);
    FinishedIsEnded(WithLine(ls, at));
    assert LandsAt(ls, Insert(text).text, at);
  }

  lemma LinesWithLine(ls: seq<string>, at: nat)
    requires at <= |ls| && forall l :: l in ls ==> '\n' !in l
    ensures Lines(Ended(WithLine(ls, at))) == Stripped(ls[..at]) + [LINE] + Stripped(ls[at..])
  {
    hide Lines, IsOurLine, Ended;
    OurLineIsOurs();
    var all := WithLine(ls, at);
    forall l | l in all
      ensures '\n' !in l
    {
      assert l in ls[..at] || l == LINE || l in ls[at..];
    }
    LinesOfEnded(all);
    StrippedJoin(ls[..at] + [LINE], ls[at..]);
    StrippedJoin(ls[..at], [LINE]);
    assert Stripped([LINE]) == [StripCr(LINE)] + Stripped([]);
  }

  /** A second insert has nothing to do. */
  lemma SecondInsertAddsNothing(text: string)
    requires Insert(text).Added?
    ensures Insert(Insert(text).text) == AlreadyPresent
  {
    hide IsKeyringAuth, IsOurLine, Lines;
    var ls := Lines(text);
    var at := FindFrom(ls, 0);
    LinesWithLine(ls, at);
    FinishedIsEnded(WithLine(ls, at));
    OurLineIsOurs();
    var out := Lines(Insert(text).text);
    assert out[|Stripped(ls[..at])|] == LINE;
  }

  /**
   * Removing what insert added gives back the very text exactly when it ends in a newline and holds no
   * carriage-return newline.
   */
  lemma RemoveUndoesInsertExactlyWhen(text: string)
    requires Insert(text).Added?
    ensures Remove(Insert(text).text) == Some(text) <==> EndsInNewline(text) && !HasCrLf(text)
  {
    hide IsKeyringAuth, IsOurLine, Lines, HasCrLf, NotOurs, Stripped, Ended, Join;
    var ls := Lines(text);
    var at := FindFrom(ls, 0);
    var up, down := ls[..at], ls[at..];
    assert up + down == ls;
    LinesWithLine(ls, at);
    FinishedIsEnded(WithLine(ls, at));
    SecondInsertAddsNothing(text);
    var out := Insert(text).text;
    var kept := NotOurs(Lines(out));
    KeptIsStripped(up, down);
    assert Remove(out) == Some(Finished(kept));
    assert EndsInNewline(Finished(kept));
    if EndsInNewline(text) {
      KeptShorter(ls);
      FinishedSize(kept, ls);
      SplittingShortens(text);
      if !HasCrLf(text) {
        CleanTextIsItsLines(text);
        NoneOurs(ls);
        FinishedIsEnded(ls);
      }
    }
  }

  const ANCHOR := "auth " + KEYRING

  /** A keyring auth line without its newline is an anchor, yet comes back with one. */
  lemma UnendedTextComesBackEnded()
    ensures
      && Insert(ANCHOR).Added? && !EndsInNewline(ANCHOR) && !HasCrLf(ANCHOR)
      && Remove(Insert(ANCHOR).text) != Some(ANCHOR)
  {
    AnchorIsPlain();
    assert Lines(ANCHOR) == [ANCHOR] by {
      assert FirstNewline(ANCHOR) == |ANCHOR|;
    }
    AnchorTakesTheLine(ANCHOR);
    RemoveUndoesInsertExactlyWhen(ANCHOR);
  }

  /** With a carriage-return newline it is one too, and comes back without the carriage return. */
  lemma CrLfTextComesBackWithout()
    ensures
      var text := ANCHOR + "\r\n";
      && Insert(text).Added? && EndsInNewline(text) && HasCrLf(text)
      && Remove(Insert(text).text) != Some(text)
  {
    var text := ANCHOR + "\r\n";
    AnchorIsPlain();
    assert text == ANCHOR + "\r" + "\n" + "";
    FirstNewlineOf(ANCHOR + "\r", "");
    assert text[..|ANCHOR| + 1] == ANCHOR + "\r" && text[|ANCHOR| + 2..] == "";
    assert StripCr(ANCHOR + "\r") == ANCHOR;
    assert Lines(text) == [ANCHOR] + Lines("");
    assert text[|ANCHOR|] == '\r' && text[|ANCHOR| + 1] == '\n';
    AnchorTakesTheLine(text);
    RemoveUndoesInsertExactlyWhen(text);
  }

  lemma AnchorIsPlain()
    ensures ANCHOR != "" && ANCHOR[|ANCHOR| - 1] == 'o' && '\n' !in ANCHOR && '\r' !in ANCHOR
  {
    assert '\n' !in KEYRING && '\r' !in KEYRING;
  }

  lemma AnchorTakesTheLine(text: string)
    requires Lines(text) == [ANCHOR]
    ensures Insert(text).Added?
  {
    LeadingText("auth ", KEYRING);
    AuthIsFirstWord(" " + KEYRING);
    assert ANCHOR == "auth" + (" " + KEYRING);
    NoModuleThere(ANCHOR);
    assert IsKeyringAuth(Lines(text)[0]);
  }

  lemma FirstWordGrows(c: char, rest: string)
    ensures IsWhite(c) ==> FirstWord([c] + rest) == []
    ensures !IsWhite(c) ==> FirstWord([c] + rest) == [c] + FirstWord(rest)
  {
    assert ([c] + rest)[1..] == rest;
  }

  lemma AuthIsFirstWord(rest: string)
    requires rest != [] && IsWhite(rest[0])
    ensures FirstWord("auth" + rest) == "auth"
  {
    hide FirstWord;
    FirstWordGrows('a', "uth" + rest);
    FirstWordGrows('u', "th" + rest);
    FirstWordGrows('t', "h" + rest);
    FirstWordGrows('h', rest);
    FirstWordGrows(rest[0], rest[1..]);
    assert ['h'] + rest == "h" + rest && ['t'] + ("h" + rest) == "th" + rest;
    assert ['u'] + ("th" + rest) == "uth" + rest && ['a'] + ("uth" + rest) == "auth" + rest;
    assert [rest[0]] + rest[1..] == rest;
  }

  /** The text is one keyring line, and no part of it names this module. */
  lemma NoModuleThere(text: string)
    requires text == "auth " + KEYRING
    ensures !AnyOurs([text])
  {
    LeadingText("auth ", KEYRING);
    forall i: nat | i + |MODULE| <= |text|
      ensures !OccursAt(text, MODULE, i)
    {
      assert text[i..i + |MODULE|][0] == text[i];
    }
  }

  lemma KeptIsStripped(up: seq<string>, down: seq<string>)
    ensures NotOurs(Stripped(up) + [LINE] + Stripped(down)) == NotOurs(Stripped(up + down))
  {
    hide IsOurLine, Stripped;
    OurLineIsOurs();
    NotOursJoin(Stripped(up) + [LINE], Stripped(down));
    NotOursJoin(Stripped(up), [LINE]);
    StrippedJoin(up, down);
    NotOursJoin(Stripped(up), Stripped(down));
    assert NotOurs([LINE]) == [];
  }

  lemma FinishedSize(kept: seq<string>, ls: seq<string>)
    requires ls != [] && |Ended(kept)| <= |Ended(ls)|
    ensures |Finished(kept)| <= |Ended(ls)|
  {
  }

  // ---------- which lines count, told without trimming or splitting ----------

  ghost predicate AllWhite(s: string) {
    forall c :: c in s ==> IsWhite(c)
  }

  /** White space, then something that starts neither white nor as a comment. */
  ghost predicate Indented(line: string, pad: string, rest: string) {
    line == pad + rest && AllWhite(pad) && (rest == [] || (!IsWhite(rest[0]) && rest[0] != '#'))
  }

  lemma TrimmedIs(line: string) returns (pad: string)
    ensures line == pad + TrimStart(line) && AllWhite(pad)
    ensures TrimStart(line) != [] ==> !IsWhite(TrimStart(line)[0])
  {
    hide IsWhite, TrimStart;
    var k := TrimmedFrom(line);
    pad := line[..k];
  }

  /** Trimming drops the first k characters, and stops at the first that is not white. */
  lemma {:induction false} TrimmedFrom(line: string) returns (k: nat)
    ensures k <= |line| && TrimStart(line) == line[k..]
    ensures forall i :: 0 <= i < k ==> IsWhite(line[i])
    ensures k < |line| ==> !IsWhite(line[k])
  {
    hide IsWhite;
    k := 0;
    if line != [] && IsWhite(line[0]) {
      var rest := line[1..];
      var n := TrimmedFrom(rest);
      k := n + 1;
      assert rest[n..] == line[k..];
      forall i | 0 <= i < k
        ensures IsWhite(line[i])
      {
        assert i > 0 ==> line[i] == rest[i - 1];
      }
    }
  }

  lemma {:induction false} TrimsTo(pad: string, rest: string)
    requires AllWhite(pad) && (rest == [] || !IsWhite(rest[0]))
    ensures TrimStart(pad + rest) == rest
  {
    if pad != [] {
      assert pad[0] in pad;
      assert (pad + rest)[1..] == pad[1..] + rest;
      TrimsTo(pad[1..], rest);
    } else {
      assert pad + rest == rest;
    }
  }

  lemma {:induction false} FirstWordIs(s: string)
    ensures FirstWord(s) <= s && forall c :: c in FirstWord(s) ==> !IsWhite(c)
    ensures |FirstWord(s)| < |s| ==> IsWhite(s[|FirstWord(s)|])
  {
    if s != [] && !IsWhite(s[0]) {
      FirstWordIs(s[1..]);
      assert s == [s[0]] + s[1..];
    }
  }

  lemma {:induction false} WordIs(word: string, rest: string)
    requires (forall c :: c in word ==> !IsWhite(c)) && (rest == [] || IsWhite(rest[0]))
    ensures FirstWord(word + rest) == word
  {
    if word != [] {
      assert word[0] in word;
      assert (word + rest)[1..] == word[1..] + rest;
      WordIs(word[1..], rest);
    } else {
      assert word + rest == rest;
    }
  }

  /** An active line naming this module. */
  lemma OurLineExactly(line: string)
    ensures IsOurLine(line) <==> exists pad, rest :: Indented(line, pad, rest) && Contains(rest, MODULE)
  {
    hide Contains, TrimStart;
    var trimmed := TrimStart(line);
    var pad := TrimmedIs(line);
    if IsOurLine(line) {
      assert Indented(line, pad, trimmed);
    }
    if exists pad, rest :: Indented(line, pad, rest) && Contains(rest, MODULE) {
      var other, rest :| Indented(line, other, rest) && Contains(rest, MODULE);
      TrimsTo(other, rest);
    }
  }

  /** White space, the word auth by itself, and the keyring module somewhere after or in it. */
  ghost predicate AuthLine(line: string, pad: string, rest: string) {
    && line == pad + "auth" + rest && AllWhite(pad) && (rest == [] || IsWhite(rest[0]))
    && Contains("auth" + rest, KEYRING)
  }

  /** A line is an anchor exactly when its first word is auth and it names the keyring module. */
  lemma AnchorExactly(line: string)
    ensures IsKeyringAuth(line) <==> exists pad, rest :: AuthLine(line, pad, rest)
  {
    hide Contains, TrimStart, FirstWord;
    var trimmed := TrimStart(line);
    var pad := TrimmedIs(line);
    if IsKeyringAuth(line) {
      FirstWordIs(trimmed);
      var rest := trimmed[4..];
      assert trimmed == "auth" + rest;
      assert line == pad + "auth" + rest;
      assert AuthLine(line, pad, rest);
    }
    if exists pad, rest :: AuthLine(line, pad, rest) {
      var other, rest :| AuthLine(line, other, rest);
      assert other + "auth" + rest == other + ("auth" + rest);
      TrimsTo(other, "auth" + rest);
      WordIs("auth", rest);
    }
  }

  /** Lines of another kind, and commented ones, are no anchors, whatever they name. */
  lemma OthersAreNoAnchors(pad: string, word: string, rest: string)
    requires AllWhite(pad) && word != "" && word != "auth" && (forall c :: c in word ==> !IsWhite(c))
    requires rest == [] || IsWhite(rest[0])
    ensures !IsKeyringAuth(pad + word + rest)
  {
    hide Contains, TrimStart, FirstWord;
    assert word[0] in word;
    assert pad + word + rest == pad + (word + rest);
    TrimsTo(pad, word + rest);
    WordIs(word, rest);
  }

  /** Which of its answers an insert gives: ours is there, there is nothing to stand above, or the line is added. */
  lemma InsertAnswersExactly(text: string)
    ensures Insert(text) == AlreadyPresent <==> AnyOurs(Lines(text))
    ensures Insert(text) == NoAnchor <==> !AnyOurs(Lines(text)) && !AnyAnchor(Lines(text))
  {
    hide IsOurLine, IsKeyringAuth, Lines, Finished, AnyOurs;
  }

  ghost predicate AnyAnchor(ls: seq<string>) {
    exists i :: 0 <= i < |ls| && IsKeyringAuth(ls[i])
  }

  // ---------- what a remove drops ----------

  /** The kept lines are those at these places, in their order, and no line of ours is among them. */
  ghost predicate KeptAt(ls: seq<string>, kept: seq<string>, at: seq<nat>) {
    && |at| == |kept| && (forall i, j :: 0 <= i < j < |at| ==> at[i] < at[j])
    && (forall i :: 0 <= i < |at| ==> at[i] < |ls| && kept[i] == ls[at[i]] && !IsOurLine(kept[i]))
    && forall k :: 0 <= k < |ls| && !IsOurLine(ls[k]) ==> k in at
  }

  lemma {:induction false} NotOursKeepsTheRest(ls: seq<string>) returns (at: seq<nat>)
    ensures KeptAt(ls, NotOurs(ls), at)
    decreases |ls|
  {
    hide IsOurLine, NotOurs, KeptAt;
    if ls == [] {
      at := [];
      NothingKept();
    } else {
      var init, last := ls[..|ls| - 1], ls[|ls| - 1];
      var before := NotOursKeepsTheRest(init);
      NotOursJoin(init, [last]);
      NotOursCons(last, []);
      assert init + [last] == ls && [last] + [] == [last];
      at := if IsOurLine(last) then before else before + [|init|];
      OneMoreLine(init, last, NotOurs(init), before);
      assert NotOurs(init) + [] == NotOurs(init);
    }
  }

  lemma NothingKept()
    ensures KeptAt([], NotOurs([]), [])
  {
  }

  lemma OneMoreLine(ls: seq<string>, last: string, kept: seq<string>, at: seq<nat>)
    requires KeptAt(ls, kept, at)
    ensures IsOurLine(last) ==> KeptAt(ls + [last], kept, at)
    ensures !IsOurLine(last) ==> KeptAt(ls + [last], kept + [last], at + [|ls|])
  {
    hide IsOurLine;
    var more := ls + [last];
    assert forall k :: 0 <= k < |ls| ==> more[k] == ls[k];
    forall k | 0 <= k < |more| && !IsOurLine(more[k])
      ensures k in at + [|ls|]
    {
      assert k < |ls| ==> k in at;
      assert (at + [|ls|])[|at|] == |ls|;
    }
  }

  /** A remove answers nothing exactly when no line is ours, and otherwise keeps every other line, in order. */
  lemma RemoveDropsExactlyOurs(text: string) returns (kept: seq<string>, at: seq<nat>)
    ensures Remove(text) == None <==> !AnyOurs(Lines(text))
    ensures KeptAt(Lines(text), kept, at)
    ensures Remove(text).Some? ==> Remove(text).value == if kept == [] then "\n" else Ended(kept)
  {
    hide IsOurLine, Lines, Ended;
    kept := NotOurs(Lines(text));
    at := NotOursKeepsTheRest(Lines(text));
    if kept != [] {
      FinishedIsEnded(kept);
    } else {
      assert Join([]) + "\n" == "\n";
    }
  }
}
