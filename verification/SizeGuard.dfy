/**
The line-size guard on standard input: a transform fed chunk by chunk, compared with one split of
the whole text into lines.
 */
module SizeGuard {
  import opened TextLines
  import opened Utf8

  const PARSE_ERROR_CODE: int := -32700

  /**
  Fields of the transform as a value; `pushed` are the lines handed to the stream before `destroy`. A
  reader that lags behind may lose pushed lines it has not read when the stream is destroyed.
   */
  datatype Guard = Guard(buffer: string, dropping: bool, destroyed: bool, pushed: seq<string>, errors: seq<int>)

  const FRESH: Guard := Guard("", false, false, [], [])

  function SizeError(g: Guard): Guard { g.(errors := g.errors + [PARSE_ERROR_CODE], destroyed := true) }

  /** Pushing after `destroy` is ignored. */
  function Push(g: Guard, line: string): Guard { if g.destroyed then g else g.(pushed := g.pushed + [line]) }

  /** The buffered line without its carriage return is pushed or refused, by its size. */
  function Dispatch(max: nat, g: Guard): Guard {
    var line := Strip(g.buffer);
    if Bytes(line) > max then SizeError(g) else Push(g, line)
  }

  function EndLine(max: nat, g: Guard): Guard {
    if g.dropping then g.(dropping := false) else Dispatch(max, g).(buffer := "")
  }

  function Feed(max: nat, g: Guard, c: char): Guard {
    if c == '\n' then EndLine(max, g) else if g.dropping then g else g.(buffer := g.buffer + [c])
  }

  function FeedAll(max: nat, g: Guard, text: string): Guard {
    if text == "" then g else Feed(max, FeedAll(max, g, text[..|text| - 1]), text[|text| - 1])
  }

  /** A stretch without a newline joins the buffer, or is skipped while dropping. */
  function AddSegment(g: Guard, segment: string): Guard {
    if g.dropping then g else g.(buffer := g.buffer + segment)
  }

  function EndChunk(max: nat, g: Guard): Guard {
    if !g.dropping && Bytes(g.buffer) > max then SizeError(g).(dropping := true, buffer := "") else g
  }

  function Chunk(max: nat, g: Guard, text: string): Guard { EndChunk(max, FeedAll(max, g, text)) }

  /** The stream calls the transform for each chunk until it is destroyed. */
  function Run(max: nat, chunks: seq<string>): Guard {
    if chunks == [] then FRESH
    else
      var g := Run(max, chunks[..|chunks| - 1]);
      if g.destroyed then g else Chunk(max, g, chunks[|chunks| - 1])
  }

  /** End of input; `remaining` is what the decoder makes of an incomplete last character. */
  function Flush(max: nat, g: Guard, remaining: string): Guard {
    var b := if g.dropping then g.buffer else g.buffer + remaining;
    if b != "" && !g.dropping then EndLine(max, g.(buffer := b)) else g.(buffer := "")
  }

  // ----- The transform itself -----

  method IndexOfNewline(text: string, from: nat) returns (at: int)
    requires from <= |text|
    ensures at == -1 ==> '\n' !in text[from..]
    ensures at != -1 ==> from <= at < |text| && text[at] == '\n' && '\n' !in text[from..at]
  {
    at := from;
    while at < |text|
      invariant from <= at <= |text| && '\n' !in text[from..at]
    {
      if text[at] == '\n' { return; }
      at := at + 1;
    }
    at := -1;
  }

  lemma NothingToAdd(text: string)
    ensures text + "" == text && text[..|text|] == text && text[..0] == ""
  {
  }

  class SizeLimitTransform {
    const maxBytes: nat
    var buffer: string
    var pendingBytes: nat
    var droppingOversizedLine: bool
    var destroyed: bool
    var pushed: seq<string>
    var errorOutput: seq<int>

    ghost predicate Valid()
      reads this
    {
      maxBytes >= 1 && pendingBytes == Bytes(buffer) && pendingBytes <= maxBytes
      && (droppingOversizedLine ==> buffer == "")
    }

    ghost function State(): Guard
      reads this
    {
      Guard(buffer, droppingOversizedLine, destroyed, pushed, errorOutput)
    }

    constructor (limit: int)
      ensures Valid() && State() == FRESH && maxBytes == if limit < 1 then 1 else limit
    {
      maxBytes := if limit < 1 then 1 else limit;
      buffer, pendingBytes, droppingOversizedLine, destroyed, pushed, errorOutput := "", 0, false, false, [], [];
    }

    method EmitSizeError()
      modifies this
      ensures State() == SizeError(old(State())) && pendingBytes == old(pendingBytes)
      ensures destroyed && errorOutput == old(errorOutput) + [-32700] && pushed == old(pushed)
    {
      errorOutput := errorOutput + [PARSE_ERROR_CODE];
      destroyed := true;
    }

    method PushLine(line: string)
      modifies this
      ensures State() == Push(old(State()), line) && pendingBytes == old(pendingBytes)
    {
      if !destroyed { pushed := pushed + [line]; }
    }

    method DispatchBuffer()
      modifies this
      ensures State() == Dispatch(maxBytes, old(State())) && pendingBytes == old(pendingBytes)
    {
      var line := if buffer != "" && buffer[|buffer| - 1] == '\r' then buffer[..|buffer| - 1] else buffer;
      var lineBytes := Bytes(line);
      if lineBytes > maxBytes { EmitSizeError(); } else { PushLine(line); }
    }

    /** The rest of a chunk without a newline: keep it, unless the line is already too long. */
    method Accumulate(tail: string)
      requires Valid()
      modifies this
      ensures Valid()
      ensures State() == EndChunk(maxBytes, AddSegment(old(State()), tail))
    {
      if !droppingOversizedLine {
        BytesOfConcat(buffer, tail);
        buffer := buffer + tail;
        pendingBytes := pendingBytes + Bytes(tail);
        if pendingBytes > maxBytes {
          EmitSizeError();
          droppingOversizedLine := true;
          buffer := "";
          pendingBytes := 0;
        }
      }
    }

    /** A newline after `segment`: judge the buffered line, or leave dropping mode. */
    method CompleteLine(segment: string)
      requires Valid()
      modifies this
      ensures Valid()
      ensures State() == EndLine(maxBytes, AddSegment(old(State()), segment))
    {
      if !droppingOversizedLine {
        buffer := buffer + segment;
        pendingBytes := pendingBytes + Bytes(segment);
        DispatchBuffer();
        buffer := "";
        pendingBytes := 0;
      } else {
        droppingOversizedLine := false;
      }
    }

    method Transform(text: string)
      requires Valid()
      modifies this
      ensures Valid() && State() == Chunk(maxBytes, old(State()), text)
    {
      var cursor := 0;
      ghost var g0 := State();
      NothingToAdd(text);
      while cursor < |text|
        invariant cursor <= |text| && Valid()
        invariant State() == FeedAll(maxBytes, g0, text[..cursor])
      {
        var nextNewline := IndexOfNewline(text, cursor);
        if nextNewline == -1 {
          FeedToEnd(maxBytes, g0, text, cursor);
          Accumulate(text[cursor..]);
          return;
        }
        FeedLine(maxBytes, g0, text, cursor, nextNewline);
        CompleteLine(text[cursor..nextNewline]);
        cursor := nextNewline + 1;
      }
    }

    method FlushRest(remaining: string)
      requires Valid()
      modifies this
      ensures Valid() && State() == Flush(maxBytes, old(State()), remaining)
    {
      NothingToAdd(buffer);
      if |remaining| > 0 && !droppingOversizedLine { buffer := buffer + remaining; }
      if |buffer| > 0 && !droppingOversizedLine { DispatchBuffer(); }
      buffer := "";
      pendingBytes := 0;
    }
  }

  lemma {:induction false} FeedSegment(max: nat, g: Guard, before: string, segment: string)
    requires '\n' !in segment
    ensures FeedAll(max, g, before + segment) == AddSegment(FeedAll(max, g, before), segment)
  {
    var h := FeedAll(max, g, before);
    if segment == "" {
      assert before + segment == before && h.buffer + segment == h.buffer;
    } else {
      var init, c := segment[..|segment| - 1], segment[|segment| - 1];
      assert c in segment;
      FeedSegment(max, g, before, init);
      assert (before + segment)[..|before + segment| - 1] == before + init;
      assert (before + segment)[|before + segment| - 1] == c;
      assert h.buffer + segment == (h.buffer + init) + [c];
    }
  }

  lemma FeedToEnd(max: nat, g: Guard, text: string, from: nat)
    requires from <= |text| && '\n' !in text[from..]
    ensures FeedAll(max, g, text) == AddSegment(FeedAll(max, g, text[..from]), text[from..])
  {
    assert text == text[..from] + text[from..];
    FeedSegment(max, g, text[..from], text[from..]);
  }

  lemma FeedLine(max: nat, g: Guard, text: string, from: nat, newline: nat)
    requires from <= newline < |text| && text[newline] == '\n' && '\n' !in text[from..newline]
    ensures FeedAll(max, g, text[..newline + 1]) ==
            EndLine(max, AddSegment(FeedAll(max, g, text[..from]), text[from..newline]))
  {
    EndsInNewline(text, from, newline);
    FeedSegment(max, g, text[..from], text[from..newline]);
  }

  lemma EndsInNewline(text: string, from: nat, newline: nat)
    requires from <= newline < |text| && text[newline] == '\n'
    ensures var t := text[..newline + 1];
            t[..|t| - 1] == text[..from] + text[from..newline] && t[|t| - 1] == '\n'
  {
  }

  // ----- The whole text, split once -----

  function Concat(chunks: seq<string>): string {
    if chunks == [] then "" else Concat(chunks[..|chunks| - 1]) + chunks[|chunks| - 1]
  }

  /** The positions at which the text is cut, including both ends. */
  function Cuts(chunks: seq<string>): set<nat> {
    if chunks == [] then {0} else Cuts(chunks[..|chunks| - 1]) + {|Concat(chunks)|}
  }

  /** What the limit says of a line ending at position `end`, given where the text was cut. */
  predicate Accepted(max: nat, cuts: set<nat>, line: string, end: nat) {
    Bytes(Strip(line)) <= max && (end in cuts ==> Bytes(line) <= max)
  }

  lemma StripShrinks(line: string)
    ensures Bytes(Strip(line)) <= Bytes(line) <= Bytes(Strip(line)) + 1
    ensures Bytes(line) > Bytes(Strip(line)) ==> line == Strip(line) + "\r"
  {
    if line != "" && line[|line| - 1] == '\r' { assert line == Strip(line) + "\r"; }
  }

  lemma StripOfLonger(line: string, c: char)
    ensures Bytes(Strip(line + [c])) >= Bytes(line)
  {
    assert (line + [c])[..|line|] == line;
    BytesOfConcat(line, [c]);
  }

  // ----- Where processing stands after part of the text -----

  /** Lines before `k` are accepted; line `k`, or the unfinished line when `k` is past the last, is not. */
  predicate Refused(max: nat, cuts: set<nat>, text: string, k: nat) {
    && k <= |Lines(text)|
    && (forall i | 0 <= i < k :: Accepted(max, cuts, Lines(text)[i], Ends(text)[i]))
    && (if k < |Lines(text)| then !Accepted(max, cuts, Lines(text)[k], Ends(text)[k])
        else !Accepted(max, cuts, Tail(text), |text|))
  }

  predicate LinesAccepted(max: nat, cuts: set<nat>, lines: seq<string>, ends: seq<nat>)
    requires |lines| == |ends|
  {
    forall i | 0 <= i < |lines| :: Accepted(max, cuts, lines[i], ends[i])
  }

  predicate AllAccepted(max: nat, cuts: set<nat>, text: string) { LinesAccepted(max, cuts, Lines(text), Ends(text)) }

  ghost predicate Tracks(max: nat, cuts: set<nat>, text: string, g: Guard) {
    if g.destroyed then
      exists k: nat :: Refused(max, cuts, text, k) && g.pushed == Stripped(Lines(text)[..k])
    else
      && AllAccepted(max, cuts, text) && g.pushed == Stripped(Lines(text))
      && g.buffer == Tail(text) && !g.dropping && g.errors == []
  }

  /** A refusal stands however the text goes on. */
  lemma RefusalStands(max: nat, cuts: set<nat>, text: string, c: char, k: nat)
    requires Refused(max, cuts, text, k)
    ensures Refused(max, cuts, text + [c], k) && Lines(text + [c])[..k] == Lines(text)[..k]
  {
    var t := text + [c];
    assert t[..|t| - 1] == text && t[|t| - 1] == c;
    if k == |Lines(text)| && c != '\n' {
      StripShrinks(Tail(text));
      StripOfLonger(Tail(text), c);
    }
  }

  lemma {:induction false} RefusalStandsAll(max: nat, cuts: set<nat>, text: string, more: string, k: nat)
    requires Refused(max, cuts, text, k)
    ensures Refused(max, cuts, text + more, k) && Lines(text + more)[..k] == Lines(text)[..k]
  {
    if more == "" {
      assert text + more == text;
    } else {
      var init := more[..|more| - 1];
      assert text + more == (text + init) + [more[|more| - 1]];
      RefusalStandsAll(max, cuts, text, init, k);
      RefusalStands(max, cuts, text + init, more[|more| - 1], k);
    }
  }

  lemma DestroyedTracks(max: nat, cuts: set<nat>, text: string, g: Guard, c: char)
    requires Tracks(max, cuts, text, g) && g.destroyed
    ensures Tracks(max, cuts, text + [c], Feed(max, g, c))
  {
    var k: nat :| Refused(max, cuts, text, k) && g.pushed == Stripped(Lines(text)[..k]);
    RefusalStands(max, cuts, text, c, k);
    var g' := Feed(max, g, c);
    assert g'.pushed == g.pushed && g'.destroyed;
  }

  /** What a newline adds to the split of the text. */
  lemma NewlineSplits(text: string)
    ensures Lines(text + "\n") == Lines(text) + [Tail(text)]
    ensures Ends(text + "\n") == Ends(text) + [|text|]
    ensures Tail(text + "\n") == ""
  {
    var t := text + "\n";
    assert t[..|t| - 1] == text && t[|t| - 1] == '\n';
  }

  lemma NewlineRefuses(max: nat, cuts: set<nat>, text: string, g: Guard)
    requires Tracks(max, cuts, text, g) && !g.destroyed && Bytes(Strip(g.buffer)) > max
    ensures Tracks(max, cuts, text + "\n", Feed(max, g, '\n'))
  {
    var t, n := text + "\n", |Lines(text)|;
    NewlineSplits(text);
    assert Refused(max, cuts, t, n);
    assert Lines(t)[..n] == Lines(text);
  }

  lemma NewlinePushes(max: nat, cuts: set<nat>, text: string, g: Guard)
    requires Tracks(max, cuts, text, g) && !g.destroyed && Bytes(Strip(g.buffer)) <= max
    requires |text| in cuts ==> Bytes(g.buffer) <= max
    ensures Tracks(max, cuts, text + "\n", Feed(max, g, '\n'))
  {
    NewlineSplits(text);
    StrippedAppend(Lines(text), Tail(text));
    OneMoreAccepted(max, cuts, Lines(text), Ends(text), Tail(text), |text|);
  }

  lemma OneMoreAccepted(max: nat, cuts: set<nat>, lines: seq<string>, ends: seq<nat>, line: string, end: nat)
    requires |lines| == |ends| && LinesAccepted(max, cuts, lines, ends) && Accepted(max, cuts, line, end)
    ensures LinesAccepted(max, cuts, lines + [line], ends + [end])
  {
  }

  lemma StrippedAppend(lines: seq<string>, line: string)
    ensures Stripped(lines + [line]) == Stripped(lines) + [Strip(line)]
  {
  }

  lemma OrdinaryTracks(max: nat, cuts: set<nat>, text: string, g: Guard, c: char)
    requires Tracks(max, cuts, text, g) && !g.destroyed && c != '\n'
    ensures Tracks(max, cuts, text + [c], Feed(max, g, c))
  {
    var t := text + [c];
    assert t[..|t| - 1] == text && t[|t| - 1] == c;
  }

  lemma FeedTracks(max: nat, cuts: set<nat>, text: string, g: Guard, c: char)
    requires Tracks(max, cuts, text, g)
    requires !g.destroyed && |text| in cuts ==> Bytes(g.buffer) <= max
    ensures Tracks(max, cuts, text + [c], Feed(max, g, c))
  {
    if g.destroyed { DestroyedTracks(max, cuts, text, g, c); }
    else if c != '\n' { OrdinaryTracks(max, cuts, text, g, c); }
    else if Bytes(Strip(g.buffer)) > max { NewlineRefuses(max, cuts, text, g); }
    else { NewlinePushes(max, cuts, text, g); }
  }

  ghost predicate TracksAfter(max: nat, cuts: set<nat>, text: string, g: Guard, more: string) {
    Tracks(max, cuts, text + more, FeedAll(max, g, more))
  }

  lemma TracksOneMore(max: nat, cuts: set<nat>, text: string, g: Guard, init: string, c: char)
    requires TracksAfter(max, cuts, text, g, init)
    requires !g.destroyed ==> Bytes(g.buffer) <= max
    requires init == "" || |text + init| !in cuts
    ensures TracksAfter(max, cuts, text, g, init + [c])
  {
    var h, more := FeedAll(max, g, init), init + [c];
    assert init == "" ==> h == g;
    FeedTracks(max, cuts, text + init, h, c);
    assert text + init + [c] == text + more;
    assert more[..|more| - 1] == init;
  }

  lemma {:induction false} FeedAllTracks(max: nat, cuts: set<nat>, text: string, g: Guard, more: string)
    requires TracksAfter(max, cuts, text, g, "")
    requires !g.destroyed ==> Bytes(g.buffer) <= max
    requires forall p | |text| < p < |text| + |more| :: p !in cuts
    ensures TracksAfter(max, cuts, text, g, more)
  {
    if more != "" {
      var init, c := more[..|more| - 1], more[|more| - 1];
      InitAndLast(more);
      FeedAllTracks(max, cuts, text, g, init);
      TracksOneMore(max, cuts, text, g, init, c);
    }
  }

  lemma EndChunkTracks(max: nat, cuts: set<nat>, text: string, g: Guard)
    requires Tracks(max, cuts, text, g) && |text| in cuts
    ensures Tracks(max, cuts, text, EndChunk(max, g))
    ensures !EndChunk(max, g).destroyed ==> Bytes(EndChunk(max, g).buffer) <= max
  {
    if !g.destroyed && Bytes(g.buffer) > max {
      assert Refused(max, cuts, text, |Lines(text)|);
      assert Lines(text)[..|Lines(text)|] == Lines(text);
    }
  }

  lemma {:induction false} CutsAreBounded(chunks: seq<string>, p: nat)
    requires p in Cuts(chunks)
    ensures p <= |Concat(chunks)|
  {
    if chunks != [] && p != |Concat(chunks)| { CutsAreBounded(chunks[..|chunks| - 1], p); }
  }

  /** No cut of the whole lies strictly inside chunk number i. */
  lemma {:induction false} NoCutInside(chunks: seq<string>, i: nat, p: nat)
    requires i < |chunks| && |Concat(chunks[..i])| < p < |Concat(chunks[..i + 1])|
    ensures p !in Cuts(chunks)
    decreases |chunks|
  {
    var init := chunks[..|chunks| - 1];
    if i == |chunks| - 1 {
      assert chunks[..i + 1] == chunks && chunks[..i] == init;
      if p in Cuts(init) { CutsAreBounded(init, p); }
    } else {
      assert init[..i] == chunks[..i] && init[..i + 1] == chunks[..i + 1];
      NoCutInside(init, i, p);
      PrefixLength(chunks, i + 1);
    }
  }

  lemma {:induction false} PrefixLength(chunks: seq<string>, i: nat)
    requires i <= |chunks|
    ensures |Concat(chunks[..i])| <= |Concat(chunks)| && |Concat(chunks[..i])| in Cuts(chunks)
    decreases |chunks|
  {
    if i == |chunks| {
      assert chunks[..i] == chunks;
    } else {
      var init := chunks[..|chunks| - 1];
      assert init[..i] == chunks[..i];
      PrefixLength(init, i);
    }
  }

  lemma {:induction false} RunTracks(max: nat, chunks: seq<string>, i: nat)
    requires i <= |chunks|
    ensures Tracks(max, Cuts(chunks), Concat(chunks[..i]), Run(max, chunks[..i]))
    ensures !Run(max, chunks[..i]).destroyed ==> Bytes(Run(max, chunks[..i]).buffer) <= max
  {
    var cuts := Cuts(chunks);
    if i == 0 {
      assert chunks[..i] == [];
    } else {
      var done := chunks[..i];
      assert done[..|done| - 1] == chunks[..i - 1];
      RunTracks(max, chunks, i - 1);
      var text, g, chunk := Concat(chunks[..i - 1]), Run(max, chunks[..i - 1]), chunks[i - 1];
      assert Concat(done) == text + chunk;
      if g.destroyed {
        var k: nat :| Refused(max, cuts, text, k) && g.pushed == Stripped(Lines(text)[..k]);
        RefusalStandsAll(max, cuts, text, chunk, k);
      } else {
        forall p | |text| < p < |text| + |chunk| ensures p !in cuts { NoCutInside(chunks, i - 1, p); }
        assert text + "" == text;
        FeedAllTracks(max, cuts, text, g, chunk);
        PrefixLength(chunks, i);
        EndChunkTracks(max, cuts, text + chunk, FeedAll(max, g, chunk));
      }
    }
  }

  // ----- Results -----

  /** The lines before number `k` are accepted, and line `k`, if there is one, is not. */
  predicate FirstRefused(max: nat, cuts: set<nat>, text: string, k: nat) {
    && k <= |Lines(text)|
    && (forall i | 0 <= i < k :: Accepted(max, cuts, Lines(text)[i], Ends(text)[i]))
    && (k < |Lines(text)| ==> !Accepted(max, cuts, Lines(text)[k], Ends(text)[k]))
  }

  /**
  For every cutting of every text: the stripped lines before the first refused one are pushed, and
  the stream is destroyed exactly when a line is refused or the unfinished rest exceeds the limit.
   */
  lemma GuardPushesUpToFirstRefused(max: nat, chunks: seq<string>, k: nat)
    requires FirstRefused(max, Cuts(chunks), Concat(chunks), k)
    ensures Run(max, chunks).pushed == Stripped(Lines(Concat(chunks))[..k])
    ensures Run(max, chunks).destroyed <==> k < |Lines(Concat(chunks))| || Bytes(Tail(Concat(chunks))) > max
    ensures !Run(max, chunks).destroyed ==> Run(max, chunks).buffer == Tail(Concat(chunks))
  {
    var cuts, text, g := Cuts(chunks), Concat(chunks), Run(max, chunks);
    assert chunks[..|chunks|] == chunks;
    RunTracks(max, chunks, |chunks|);
    PrefixLength(chunks, |chunks|);
    if g.destroyed {
      var j: nat :| Refused(max, cuts, text, j) && g.pushed == Stripped(Lines(text)[..j]);
      assert j == k;
      if k == |Lines(text)| { StripShrinks(Tail(text)); }
    } else {
      assert k == |Lines(text)| && Lines(text)[..k] == Lines(text);
    }
  }

  lemma FindFirstRefused(max: nat, cuts: set<nat>, text: string) returns (k: nat)
    ensures FirstRefused(max, cuts, text, k)
  {
    k := 0;
    while k < |Lines(text)| && Accepted(max, cuts, Lines(text)[k], Ends(text)[k])
      invariant k <= |Lines(text)|
      invariant forall i | 0 <= i < k :: Accepted(max, cuts, Lines(text)[i], Ends(text)[i])
    {
      k := k + 1;
    }
  }

  /**
  At the end of input the unfinished line, with what the decoder makes of an incomplete last character,
  is pushed if it is not empty and fits, and refused otherwise; without such a remainder it always fits.
   */
  lemma FlushPushesTheRest(max: nat, chunks: seq<string>, remaining: string)
    requires !Run(max, chunks).destroyed
    ensures var rest, g := Tail(Concat(chunks)) + remaining, Flush(max, Run(max, chunks), remaining);
            && (g.destroyed <==> Bytes(Strip(rest)) > max)
            && g.pushed == Stripped(Lines(Concat(chunks))) + (if rest == "" || g.destroyed then [] else [Strip(rest)])
            && (remaining == "" ==> !g.destroyed)
  {
    RunningState(max, chunks);
    FlushJudges(max, Run(max, chunks), remaining);
    NothingToAdd(Tail(Concat(chunks)));
    StripShrinks(Tail(Concat(chunks)));
  }

  lemma RunningState(max: nat, chunks: seq<string>)
    requires !Run(max, chunks).destroyed
    ensures var g := Run(max, chunks);
            && !g.dropping && g.buffer == Tail(Concat(chunks)) && Bytes(g.buffer) <= max
            && g.pushed == Stripped(Lines(Concat(chunks)))
  {
    assert chunks[..|chunks|] == chunks;
    RunTracks(max, chunks, |chunks|);
  }

  lemma FlushJudges(max: nat, g: Guard, remaining: string)
    requires !g.destroyed && !g.dropping
    ensures var rest, h := g.buffer + remaining, Flush(max, g, remaining);
            && (h.destroyed <==> Bytes(Strip(rest)) > max)
            && h.pushed == g.pushed + (if rest == "" || h.destroyed then [] else [Strip(rest)])
  {
    assert g.pushed + [] == g.pushed;
  }

  /**
  Once the guard has got as far as line `k`: too long when stripped, it is refused under every cutting;
  fitting raw, under none; and a line of exactly `max` bytes before its carriage return passes exactly
  when no cut falls between CR and LF.
   */
  lemma CutMattersOnlyAtLimit(max: nat, chunks: seq<string>, k: nat)
    requires k < |Lines(Concat(chunks))| && k <= |Run(max, chunks).pushed|
    ensures var line, end, g := Lines(Concat(chunks))[k], Ends(Concat(chunks))[k], Run(max, chunks);
            && (Bytes(Strip(line)) > max ==> g.destroyed && |g.pushed| == k)
            && (Bytes(line) <= max ==> |g.pushed| > k && g.pushed[k] == Strip(line))
            && (Bytes(Strip(line)) <= max < Bytes(line) ==>
                  && Bytes(Strip(line)) == max && line == Strip(line) + "\r"
                  && (|g.pushed| > k <==> end !in Cuts(chunks))
                  && (end in Cuts(chunks) ==> g.destroyed))
  {
    var m := FindFirstRefused(max, Cuts(chunks), Concat(chunks));
    GuardPushesUpToFirstRefused(max, chunks, m);
    assert |Run(max, chunks).pushed| == m;
    StripShrinks(Lines(Concat(chunks))[k]);
  }

  lemma OneCrLfLine(line: string)
    requires '\n' !in line
    ensures Lines(line + "\r" + "\n") == [line + "\r"] && Ends(line + "\r" + "\n") == [|line| + 1]
    ensures Tail(line + "\r" + "\n") == "" && Strip(line + "\r") == line
  {
    LinesOfMore("", line + "\r");
    assert "" + (line + "\r") == line + "\r";
    assert (line + "\r")[..|line|] == line;
    NewlineSplits(line + "\r");
  }

  lemma CutsOfOne(x: string)
    ensures Concat([x]) == x && Cuts([x]) == {0, |x|}
  {
    assert [x][..0] == [] && "" + x == x;
  }

  lemma CutsOfTwo(x: string, y: string)
    ensures Concat([x, y]) == x + y && Cuts([x, y]) == {0, |x|, |x| + |y|}
  {
    assert [x, y][..1] == [x];
    CutsOfOne(x);
  }

  lemma UncutPasses(max: nat, line: string)
    requires '\n' !in line && Bytes(line) == max
    ensures !Run(max, [line + "\r" + "\n"]).destroyed && Run(max, [line + "\r" + "\n"]).pushed == [line]
  {
    var text := line + "\r" + "\n";
    OneCrLfLine(line);
    CutsOfOne(text);
    assert Accepted(max, Cuts([text]), line + "\r", |line| + 1);
    GuardPushesUpToFirstRefused(max, [text], 1);
    assert Lines(text)[..1] == [line + "\r"];
  }

  lemma CutIsRefused(max: nat, line: string)
    requires '\n' !in line && Bytes(line) == max
    ensures Run(max, [line + "\r", "\n"]).destroyed && Run(max, [line + "\r", "\n"]).pushed == []
  {
    var chunks := [line + "\r", "\n"];
    OneCrLfLine(line);
    BytesOfConcat(line, "\r");
    CutsOfTwo(line + "\r", "\n");
    assert !Accepted(max, Cuts(chunks), line + "\r", |line| + 1);
    GuardPushesUpToFirstRefused(max, chunks, 0);
  }

  /** A line of exactly `max` bytes ended by CR LF passes in one chunk and is refused when cut before LF. */
  lemma CutBetweenCrAndLf(max: nat, line: string)
    requires '\n' !in line && Bytes(line) == max
    ensures Concat([line + "\r" + "\n"]) == Concat([line + "\r", "\n"])
    ensures !Run(max, [line + "\r" + "\n"]).destroyed && Run(max, [line + "\r" + "\n"]).pushed == [line]
    ensures Run(max, [line + "\r", "\n"]).destroyed && Run(max, [line + "\r", "\n"]).pushed == []
  {
    CutsOfOne(line + "\r" + "\n");
    CutsOfTwo(line + "\r", "\n");
    UncutPasses(max, line);
    CutIsRefused(max, line);
  }

  /** The kept buffer never exceeds the limit, whatever the chunks. */
  lemma {:induction false} BufferStaysBounded(max: nat, chunks: seq<string>)
    ensures Bytes(Run(max, chunks).buffer) <= max
    ensures Run(max, chunks).destroyed <==> Run(max, chunks).errors != []
  {
    if chunks != [] {
      BufferStaysBounded(max, chunks[..|chunks| - 1]);
      var g := Run(max, chunks[..|chunks| - 1]);
      RunningIsNotDropping(max, chunks[..|chunks| - 1]);
      if !g.destroyed { FeedErrors(max, g, chunks[|chunks| - 1]); }
    }
  }

  lemma RunningIsNotDropping(max: nat, chunks: seq<string>)
    ensures !Run(max, chunks).destroyed ==> !Run(max, chunks).dropping
  {
    RunTracks(max, chunks, |chunks|);
    assert chunks[..|chunks|] == chunks;
  }

  lemma {:induction false} FeedErrors(max: nat, g: Guard, text: string)
    requires (g.destroyed <==> g.errors != []) && !g.dropping
    ensures FeedAll(max, g, text).destroyed <==> FeedAll(max, g, text).errors != []
    ensures !FeedAll(max, g, text).dropping
  {
    if text != "" { FeedErrors(max, g, text[..|text| - 1]); }
  }
}
