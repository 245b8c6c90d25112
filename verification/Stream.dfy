/** What a channel makes of a connection's text: the reader of frames and the loop over
    them together, so that neither chunks nor comments show in what is heard. */
module Stream {
  import Channel
  import opened ChannelRuns
  import opened Frames

  /** What the loop tells apart of a frame. */
  function SentOf(frame: Frame): Sent {
    if frame.event == "hello" then Hello else if frame.event == "changed" then Changed else Other
  }

  function SentAll(frames: seq<Frame>): (sent: seq<Sent>)
    ensures |sent| == |frames|
  {
    seq(|frames|, i requires 0 <= i < |frames| => SentOf(frames[i]))
  }

  lemma SentJoins(a: seq<Frame>, b: seq<Frame>)
    ensures SentAll(a + b) == SentAll(a) + SentAll(b)
  {
  }

  /** Hearing frames and then more is hearing them all. */
  lemma {:induction false} HeardOn(s: State, c: nat, a: seq<Sent>, b: seq<Sent>)
    requires c in s.running
    ensures HearAll(s, c, a + b) == HearAll(HearAll(s, c, a), c, b)
    decreases |a|
  {
    if a == [] {
      assert a + b == b;
    } else {
      assert (a + b)[0] == a[0] && (a + b)[1..] == a[1..] + b;
      HeardOn(Hear(s, c, a[0]), c, a[1..], b);
    }
  }

  /** The state after pieces of text, each pushed and its frames heard before the next. */
  function HeardPieces(s: State, c: nat, buffer: string, pieces: seq<string>): State
    requires c in s.running
    decreases |pieces|
  {
    if pieces == [] then s
    else
      var r := Read(buffer + NoReturns(pieces[0]));
      HeardPieces(HearAll(s, c, SentAll(r.frames)), c, r.rest, pieces[1..])
  }

  /** One read of the connection: the text is pushed, and what it completes is heard. */
  method ReadsPiece(channel: Channel.Channel, reader: FrameReader, c: nat, text: string)
    requires c in channel.running
    modifies channel, reader
    ensures
      var r := Read(old(reader.buffer) + NoReturns(text));
      reader.buffer == r.rest && channel.Now() == HearAll(old(channel.Now()), c, SentAll(r.frames))
  {
    hide Read, NoReturns;
    var frames := reader.Push(text);
    ghost var begun := channel.Now();
    assert SentAll(frames)[0..] == SentAll(frames);
    for i := 0 to |frames|
      invariant c in channel.running
      invariant HearAll(begun, c, SentAll(frames)) == HearAll(channel.Now(), c, SentAll(frames)[i..])
      invariant reader.buffer == Read(old(reader.buffer) + NoReturns(text)).rest
    {
      ghost var left := SentAll(frames)[i..];
      assert left[0] == SentOf(frames[i]) && left[1..] == SentAll(frames)[i + 1..];
      channel.Hears(c, SentOf(frames[i]));
    }
    assert SentAll(frames)[|frames|..] == [];
  }

  /** However a text is cut, its pieces are heard as its frames are. */
  lemma {:induction false} HeardHoweverCut(s: State, c: nat, buffer: string, pieces: seq<string>)
    requires c in s.running && BlankLine(buffer) < 0
    ensures HeardPieces(s, c, buffer, pieces) == HearAll(s, c, SentAll(Pushed(buffer, pieces).frames))
    decreases |pieces|
  {
    hide Read, NoReturns, BlankLine;
    if pieces != [] {
      var r := Read(buffer + NoReturns(pieces[0]));
      var after := Pushed(r.rest, pieces[1..]).frames;
      HeardHoweverCut(HearAll(s, c, SentAll(r.frames)), c, r.rest, pieces[1..]);
      SentJoins(r.frames, after);
      HeardOn(s, c, SentAll(r.frames), SentAll(after));
    }
  }

  /** A server prints frames and comments, the network cuts the text anywhere, and the
      channel ends as if the frames had been delivered whole and at once. */
  lemma HeardAsPrinted(s: State, c: nat, n: nat, items: seq<Item>, pieces: seq<string>)
    requires c in s.running && n <= |s.running[c].queue| && s.running[c].queue[..n] == SentAll(FramesIn(items))
    requires (forall item :: item in items ==> Printable(item)) && Whole(pieces) == Print(items)
    ensures
      var conn := s.running[c];
      HeardPieces(s.(running := s.running[c := conn.(queue := conn.queue[n..])]), c, "", pieces) == Deliver(s, c, n)
  {
    var conn := s.running[c];
    PrintedAndPushed(items, pieces);
    HeardHoweverCut(s.(running := s.running[c := conn.(queue := conn.queue[n..])]), c, "", pieces);
  }

  /** A frame printed and heard, cut anywhere: a `hello` makes the channel live, a `changed`
      has it settle, and one of any other name does nothing. */
  lemma HeardByItsName(s: State, c: nat, frame: Frame, pieces: seq<string>)
    requires c in s.running && Printable(Shown(frame)) && Whole(pieces) == Print([Shown(frame)])
    ensures
      var u := HeardPieces(s, c, "", pieces);
      if frame.event == "hello" then u.standing == Live && u.failures == 0 && u.heardOnce && u.polling.None?
      else if frame.event == "changed" then u.settling.Some? && u.standing == s.standing && u.running == s.running
      else u == s
  {
    PrintedAndPushed([Shown(frame)], pieces);
    HeardHoweverCut(s, c, "", pieces);
    hide Read, NoReturns, BlankLine, Print, Pushed;
    assert FramesIn([Shown(frame)]) == [frame] by {
      assert [Shown(frame)][1..] == [] && FramesIn([]) == [];
    }
    var sent := SentAll([frame]);
    assert sent == [SentOf(frame)] && sent[1..] == [];
    assert HearAll(s, c, sent) == HearAll(Hear(s, c, sent[0]), c, sent[1..]);
    hide Cleared;
  }
}
