/** Splitting a text into lines at newlines, and joining lines again. */
module TextLines {

  lemma InitAndLast(text: string)
    requires text != ""
    ensures text == text[..|text| - 1] + [text[|text| - 1]]
  {
  }

  function Tail(text: string): string {
    if text == "" then ""
    else if text[|text| - 1] == '\n' then ""
    else Tail(text[..|text| - 1]) + [text[|text| - 1]]
  }

  function Lines(text: string): seq<string> {
    if text == "" then []
    else
      var init := text[..|text| - 1];
      if text[|text| - 1] == '\n' then Lines(init) + [Tail(init)] else Lines(init)
  }

  /** The position of the newline that ends each line. */
  function Ends(text: string): (e: seq<nat>)
    ensures |e| == |Lines(text)|
  {
    if text == "" then []
    else
      var init := text[..|text| - 1];
      if text[|text| - 1] == '\n' then Ends(init) + [|init|] else Ends(init)
  }

  function Unlines(lines: seq<string>): string {
    if lines == [] then "" else Unlines(lines[..|lines| - 1]) + lines[|lines| - 1] + "\n"
  }

  /** The split loses nothing and no piece contains a newline. */
  lemma {:induction false} SplitIsExact(text: string)
    ensures Unlines(Lines(text)) + Tail(text) == text
    ensures '\n' !in Tail(text) && forall l | l in Lines(text) :: '\n' !in l
  {
    if text != "" {
      var init, c := text[..|text| - 1], text[|text| - 1];
      SplitIsExact(init);
      assert text == init + [c];
      if c == '\n' {
        assert Lines(text)[..|Lines(text)| - 1] == Lines(init);
        assert Unlines(Lines(text)) == Unlines(Lines(init)) + Tail(init) + "\n";
      }
    }
  }

  /** Lines that contain no newline survive joining and splitting. */
  lemma {:induction false} LinesOfUnlines(lines: seq<string>)
    requires forall l | l in lines :: '\n' !in l
    ensures Lines(Unlines(lines)) == lines && Tail(Unlines(lines)) == ""
  {
    if lines != [] {
      var init, last := lines[..|lines| - 1], lines[|lines| - 1];
      LinesOfUnlines(init);
      LinesOfMore(Unlines(init), last);
      assert Tail(Unlines(init)) + last == last;
      var text := Unlines(lines);
      assert text == Unlines(init) + last + "\n";
      assert text[..|text| - 1] == Unlines(init) + last;
      assert lines == init + [last];
    }
  }

  lemma {:induction false} LinesOfMore(text: string, more: string)
    requires '\n' !in more
    ensures Lines(text + more) == Lines(text) && Tail(text + more) == Tail(text) + more
  {
    if more == "" {
      assert text + more == text && Tail(text) + more == Tail(text);
    } else {
      var init, c := more[..|more| - 1], more[|more| - 1];
      LinesOfMore(text, init);
      assert c in more;
      assert (text + more)[..|text + more| - 1] == text + init && (text + more)[|text + more| - 1] == c;
      assert Tail(text) + more == Tail(text) + init + [c];
    }
  }

  /** The line without the carriage return of a CRLF ending. */
  function Strip(line: string): string {
    if line != "" && line[|line| - 1] == '\r' then line[..|line| - 1] else line
  }

  function Stripped(lines: seq<string>): (s: seq<string>)
    ensures |s| == |lines| && forall i | 0 <= i < |lines| :: s[i] == Strip(lines[i])
  {
    if lines == [] then [] else Stripped(lines[..|lines| - 1]) + [Strip(lines[|lines| - 1])]
  }

  /** The recorded ends are the newlines of the text: everything up to one is the lines it completes. */
  lemma {:induction false} EndsAreNewlines(text: string, i: nat)
    requires i < |Lines(text)|
    ensures Ends(text)[i] < |text| && text[Ends(text)[i]] == '\n'
    ensures text[..Ends(text)[i]] == Unlines(Lines(text)[..i]) + Lines(text)[i]
    decreases |text|
  {
    var init, c := text[..|text| - 1], text[|text| - 1];
    var n := |Lines(init)|;
    if c == '\n' && i == n {
      SplitIsExact(init);
      assert Lines(text)[..i] == Lines(init);
      assert text[..|init|] == init;
    } else {
      EndsAreNewlines(init, i);
      assert Lines(text)[..i] == Lines(init)[..i];
      assert text[..Ends(init)[i]] == init[..Ends(init)[i]];
    }
  }
}
