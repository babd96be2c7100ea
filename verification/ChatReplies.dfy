/** What a client is sent and what is stored, told from the lines of the model's reply alone. */
module ChatReplies {
  import opened Wrappers
  import opened ChatStream
  import opened ChatServer
  import Seqs = Sequences

  /** The reply is read up to its first last line, or to its end if it has none. */
  ghost predicate ReadUpTo(lines: seq<Line>, n: nat) {
    && n <= |lines|
    && (forall i | 0 <= i < n - 1 :: !(lines[i].Payload? && lines[i].last))
    && (n < |lines| ==> n > 0 && lines[n - 1].Payload? && lines[n - 1].last)
  }

  /** The last line that was read says that it is the last. */
  predicate Ended(lines: seq<Line>, n: nat)
    requires n <= |lines|
  {
    n > 0 && lines[n - 1].Payload? && lines[n - 1].last
  }

  /** The nonempty pieces of text in some lines, in order, on whatever lines they are. */
  function Pieces(lines: seq<Line>): seq<Piece> {
    if lines == [] then []
    else match lines[0]
      case Payload(Some(piece), _) => (if piece.text == "" then [] else [piece]) + Pieces(lines[1..])
      case _ => Pieces(lines[1..])
  }

  function Joined(pieces: seq<Piece>): string {
    if pieces == [] then "" else pieces[0].text + Joined(pieces[1..])
  }

  function Tokens(pieces: seq<Piece>): seq<Item> {
    seq(|pieces|, i requires 0 <= i < |pieces| => TokenItem(pieces[i]))
  }

  function DoneIf(ended: bool): seq<Item> {
    if ended then [DoneItem] else []
  }

  // ---------- what is yielded ----------

  /** The items of a reply with these pieces. */
  function Reply(pieces: seq<Piece>, ended: bool): seq<Item> {
    Tokens(pieces) + DoneIf(ended)
  }

  lemma {:induction false} NoPieces(ended: bool)
    ensures Reply([], ended) == DoneIf(ended)
    ensures Sent(DoneIf(ended)) == [] && Unsent(DoneIf(ended)) == "" && Texts(DoneIf(ended)) == ""
    ensures AllSendable(DoneIf(ended))
  {
    assert DoneIf(true)[1..] == [];
  }

  lemma {:induction false} OnePieceMore(pieces: seq<Piece>, ended: bool)
    requires pieces != []
    ensures var items := Reply(pieces, ended);
            && items != [] && items[0] == TokenItem(pieces[0]) && items[1..] == Reply(pieces[1..], ended)
  {
    assert Tokens(pieces)[1..] == Tokens(pieces[1..]);
  }

  lemma {:induction false} FirstLine(lines: seq<Line>, n: nat)
    requires ReadUpTo(lines, n) && n > 0
    ensures Ended(lines, 1) ==> n == 1
    ensures !Ended(lines, 1) ==> ReadUpTo(lines[1..], n - 1) && (Ended(lines[1..], n - 1) <==> Ended(lines, n))
    ensures lines[..n][0] == lines[0] && lines[..n][1..] == lines[1..][..n - 1]
  {
    assert forall i | 0 < i < n :: lines[1..][i - 1] == lines[i];
  }

  lemma {:induction false} YieldedOfMore(lines: seq<Line>, pieces: seq<Piece>, ended: bool)
    requires lines != [] && AfterText(lines) == Reply(pieces, ended)
    ensures Items(lines) == match lines[0]
                            case Payload(Some(piece), _) =>
                              Reply((if piece.text == "" then [] else [piece]) + pieces, ended)
                            case _ => Reply(pieces, ended)
  {
    Seqs.Whole(lines);
    ItemsAt(lines, 0);
    Seqs.Units(pieces);
    if lines[0].Payload? && lines[0].piece.Some? && lines[0].piece.value.text != "" {
      var all := [lines[0].piece.value] + pieces;
      OnePieceMore(all, ended);
      assert all[1..] == pieces;
    }
  }

  /** A reply yields one token for every nonempty piece on the lines that are read, the last one
      included, and then the done item if the reply says that it is over. */
  lemma {:induction false} YieldsPieces(lines: seq<Line>, n: nat)
    requires ReadUpTo(lines, n)
    ensures Items(lines) == Reply(Pieces(lines[..n]), Ended(lines, n))
    decreases |lines|
  {
    if n == 0 {
      NoPieces(false);
    } else {
      FirstLine(lines, n);
      var rest := Pieces(lines[..n][1..]);
      if Ended(lines, 1) {
        assert lines[..n][1..] == [];
        NoPieces(true);
      } else {
        YieldsPieces(lines[1..], n - 1);
      }
      assert AfterText(lines) == Reply(rest, Ended(lines, n));
      hide AfterText;
      hide Reply;
      YieldedOfMore(lines, rest, Ended(lines, n));
    }
  }

  lemma {:induction false} TextsOfReply(pieces: seq<Piece>, ended: bool)
    ensures Texts(Reply(pieces, ended)) == Joined(pieces)
    ensures DoneItem in Reply(pieces, ended) <==> ended
  {
    if pieces == [] {
      NoPieces(ended);
    } else {
      TextsOfReply(pieces[1..], ended);
      OnePieceMore(pieces, ended);
    }
  }

  // ---------- what is sent and stored ----------

  /** The pieces before the first one that cannot be encoded, k of them. */
  ghost predicate SendableUpTo(pieces: seq<Piece>, k: nat) {
    k <= |pieces| && (forall i | 0 <= i < k :: pieces[i].encodable) && (k < |pieces| ==> !pieces[k].encodable)
  }

  function UpToFailure(pieces: seq<Piece>, k: nat): seq<Piece>
    requires k <= |pieces|
  {
    if k < |pieces| then pieces[..k + 1] else pieces
  }

  /** One token event for each of these pieces. */
  ghost predicate TokensOf(events: seq<Event>, pieces: seq<Piece>) {
    |events| == |pieces| && forall i | 0 <= i < |pieces| :: events[i] == Token(pieces[i].text)
  }

  lemma {:induction false} SentOfMore(items: seq<Item>, piece: Piece, events: seq<Event>, pieces: seq<Piece>)
    requires items != [] && items[0] == TokenItem(piece) && piece.encodable
    requires Sent(items[1..]) == events && TokensOf(events, pieces) && TokenTexts(events) == Joined(pieces)
    ensures TokensOf(Sent(items), [piece] + pieces) && TokenTexts(Sent(items)) == Joined([piece] + pieces)
    ensures Unsent(items) == Unsent(items[1..])
    ensures AllSendable(items) <==> AllSendable(items[1..])
  {
    Seqs.HeadTail(Token(piece.text), events);
    Seqs.HeadTail(piece, pieces);
    assert forall i | 0 < i < |items| :: items[i] == items[1..][i - 1];
  }

  lemma {:induction false} SentOfReply(pieces: seq<Piece>, k: nat, ended: bool)
    requires SendableUpTo(pieces, k)
    ensures var items := Reply(pieces, ended);
            && TokensOf(Sent(items), pieces[..k])
            && TokenTexts(Sent(items)) == Joined(pieces[..k])
            && Unsent(items) == (if k < |pieces| then pieces[k].text else "")
            && (AllSendable(items) <==> k == |pieces|)
  {
    hide Reply;
    var items := Reply(pieces, ended);
    if pieces == [] {
      NoPieces(ended);
    } else {
      OnePieceMore(pieces, ended);
      if k == 0 {
        assert Unsendable(items[0]);
      } else {
        SentOfReply(pieces[1..], k - 1, ended);
        var rest := pieces[1..][..k - 1];
        SentOfMore(items, pieces[0], Sent(items[1..]), rest);
        assert pieces[..k] == [pieces[0]] + rest;
      }
    }
  }

  lemma {:induction false} JoinedOfConcat(a: seq<Piece>, b: seq<Piece>)
    ensures Joined(a + b) == Joined(a) + Joined(b)
  {
    if a == [] {
      Seqs.Units(b);
      Seqs.Units(Joined(b));
    } else {
      JoinedOfConcat(a[1..], b);
      Seqs.Uncons(a, b);
      Seqs.Assoc(a[0].text, Joined(a[1..]), Joined(b));
    }
  }

  lemma {:induction false} JoinedToFailure(pieces: seq<Piece>, k: nat)
    requires k <= |pieces|
    ensures Joined(UpToFailure(pieces, k)) == Joined(pieces[..k]) + if k < |pieces| then pieces[k].text else ""
  {
    if k < |pieces| {
      assert pieces[..k + 1] == pieces[..k] + [pieces[k]];
      JoinedOfConcat(pieces[..k], [pieces[k]]);
      Seqs.Units(pieces[k].text);
      assert Joined([pieces[k]]) == pieces[k].text;
    } else {
      assert pieces[..k] == pieces;
      Seqs.Units(Joined(pieces));
    }
  }

  /** An undisturbed run sends the text of the pieces before the first that cannot be encoded, piece
      by piece after the metadata, and stores the text up to that one and including it; all of
      it if there is none. */
  lemma {:induction false} StoresReply(metadata: Event, lines: seq<Line>, n: nat, k: nat, ending: Ending, messageId: nat)
    requires metadata.Metadata? && ReadUpTo(lines, n) && SendableUpTo(Pieces(lines[..n]), k)
    ensures var items, pieces := Items(lines), Pieces(lines[..n]);
            var run := Emission(metadata, true, items, ending, messageId);
            && k + 1 <= |run| && TokensOf(run[1..k + 1], pieces[..k])
            && TokenTexts(run) == Joined(pieces[..k])
            && StoredAnswer(run, true, items) == Joined(UpToFailure(pieces, k))
  {
    var items, pieces := Items(lines), Pieces(lines[..n]);
    YieldsPieces(lines, n);
    SentOfReply(pieces, k, Ended(lines, n));
    JoinedToFailure(pieces, k);
    hide Items;
    hide Pieces;
    hide Reply;
    hide Joined;
    hide Sent;
    EmissionTexts(metadata, true, items, ending, messageId);
    SentFollowsMetadata(metadata, items, ending, messageId);
    StoresUnsent(metadata, items, ending, messageId);
  }

  lemma {:induction false} SentFollowsMetadata(metadata: Event, items: seq<Item>, ending: Ending, messageId: nat)
    ensures var run := Emission(metadata, true, items, ending, messageId);
            |run| > |Sent(items)| && run[1..|Sent(items)| + 1] == Sent(items)
  {
    hide Sent;
    hide Outcome;
  }

  lemma {:induction false} StoresUnsent(metadata: Event, items: seq<Item>, ending: Ending, messageId: nat)
    requires metadata.Metadata?
    ensures var run := Emission(metadata, true, items, ending, messageId);
            StoredAnswer(run, true, items) == TokenTexts(run) + Unsent(items)
  {
    var run := Emission(metadata, true, items, ending, messageId);
    StoredIsSentIff(metadata, true, items, ending, messageId);
    RunsFollowTheProtocol(metadata, true, items, ending, messageId);
    if AllSendable(items) {
      SendableItems(items);
    }
    hide Emission;
    hide Sent;
    if Unsent(items) == "" {
      Seqs.Units(TokenTexts(run));
    } else {
      StoredWithUnsent(metadata, items, ending, messageId);
    }
  }

  lemma {:induction false} StoredWithUnsent(metadata: Event, items: seq<Item>, ending: Ending, messageId: nat)
    requires metadata.Metadata? && !AllSendable(items)
    ensures HasProblem(Emission(metadata, true, items, ending, messageId))
  {
    hide Sent;
    var run := Emission(metadata, true, items, ending, messageId);
    assert Outcome(true, items, ending) == Failed;
    assert run[1 + |Sent(items)|] == Problem(Failed);
  }

  // ---------- how a run ends ----------

  /** What a run has come to is told by three things about its items. */
  lemma {:induction false} OutcomeByItems(metadataOk: bool, items: seq<Item>, ending: Ending)
    ensures var s, sendable, ended := Outcome(metadataOk, items, ending), metadataOk && AllSendable(items), DoneItem in items;
            && (s == Complete <==> sendable && ended && Sent(items) != [])
            && (s == Empty <==> sendable && (ended || ending == Normal) && Sent(items) == [])
            && (s == Interrupted <==>
                  sendable && !ended && (ending == RequestFailed || (ending == Normal && Sent(items) != [])))
            && (s == Timeout <==> sendable && !ended && ending == TimedOut)
            && (s == Failed <==> !sendable || (!ended && ending == Broken))
  {
    hide AllSendable;
    hide Sent;
  }

  lemma {:induction false} ReplyFacts(lines: seq<Line>, n: nat, k: nat)
    requires ReadUpTo(lines, n) && SendableUpTo(Pieces(lines[..n]), k)
    ensures var items, pieces := Items(lines), Pieces(lines[..n]);
            && (AllSendable(items) <==> k == |pieces|)
            && (DoneItem in items <==> Ended(lines, n))
            && (k == |pieces| ==> (Sent(items) == [] <==> pieces == []))
  {
    var pieces := Pieces(lines[..n]);
    YieldsPieces(lines, n);
    TextsOfReply(pieces, Ended(lines, n));
    SentOfReply(pieces, k, Ended(lines, n));
    hide Items;
    hide Sent;
    hide Pieces;
    hide AllSendable;
  }

  /** The last two events of a run. */
  lemma {:induction false} LastEvents(metadata: Event, metadataOk: bool, items: seq<Item>, ending: Ending, messageId: nat)
    ensures var run := Emission(metadata, metadataOk, items, ending, messageId);
            var s, last := Outcome(metadataOk, items, ending), |run| - 1;
            && last >= 0 && run[last] == Last(s, messageId)
            && (s != Complete ==> last > 0 && run[last - 1] == Problem(s))
  {
    hide Sent;
    hide Outcome;
  }

  /** The run ends with this status, after an error with this code if there is one. */
  predicate EndsAs(run: seq<Event>, status: string, code: Option<string>) {
    var last := |run| - 1;
    && last >= 0 && run[last].Done? && run[last].status == status && run[last].partial == code.Some?
    && (code.Some? ==> last > 0 && run[last - 1].Failure? && run[last - 1].code == code)
  }

  lemma {:induction false} EndsAsOutcome(metadata: Event, metadataOk: bool, items: seq<Item>, ending: Ending, messageId: nat)
    ensures var s, run := Outcome(metadataOk, items, ending), Emission(metadata, metadataOk, items, ending, messageId);
            && (EndsAs(run, "complete", None) <==> s == Complete)
            && (EndsAs(run, "empty", Some("empty_stream")) <==> s == Empty)
            && (EndsAs(run, "interrupted", Some("stream_interrupted")) <==> s == Interrupted)
            && (EndsAs(run, "timeout", Some("timeout")) <==> s == Timeout)
            && (EndsAs(run, "failed", Some("generation_failed")) <==> s == Failed)
  {
    LastEvents(metadata, metadataOk, items, ending, messageId);
    hide Emission;
    hide Outcome;
  }

  /** How an undisturbed run ends, from the reply: as complete if everything could be encoded, the reply
      said that it was over and some text came; and otherwise as what went wrong, with its own
      status and code. */
  lemma {:induction false} EndsAsIff(metadata: Event, metadataOk: bool, lines: seq<Line>, n: nat, k: nat,
      ending: Ending, messageId: nat)
    requires ReadUpTo(lines, n) && SendableUpTo(Pieces(lines[..n]), k)
    ensures var run := Emission(metadata, metadataOk, Items(lines), ending, messageId);
            var anyText, sendable, ended := Pieces(lines[..n]) != [], metadataOk && k == |Pieces(lines[..n])|, Ended(lines, n);
            && (EndsAs(run, "complete", None) <==> sendable && ended && anyText)
            && (EndsAs(run, "empty", Some("empty_stream")) <==> sendable && (ended || ending == Normal) && !anyText)
            && (EndsAs(run, "interrupted", Some("stream_interrupted")) <==>
                  sendable && !ended && (ending == RequestFailed || (ending == Normal && anyText)))
            && (EndsAs(run, "timeout", Some("timeout")) <==> sendable && !ended && ending == TimedOut)
            && (EndsAs(run, "failed", Some("generation_failed")) <==> !sendable || (!ended && ending == Broken))
  {
    ReplyFacts(lines, n, k);
    OutcomeByItems(metadataOk, Items(lines), ending);
    EndsAsOutcome(metadata, metadataOk, Items(lines), ending, messageId);
    hide Items;
    hide Pieces;
    hide Emission;
    hide Outcome;
    hide EndsAs;
    hide Sent;
    hide AllSendable;
  }

  /** In particular a cached answer, which is one last line, is sent whole and completes. */
  lemma {:induction false} CachedAnswerIsSent(metadata: Event, text: string, ending: Ending, messageId: nat)
    requires metadata.Metadata? && text != ""
    ensures var items := Items([Payload(Some(Piece(text, true)), true)]);
            var run := Emission(metadata, true, items, ending, messageId);
            && items == [TokenItem(Piece(text, true)), DoneItem]
            && run == [metadata, Token(text), Last(Complete, messageId)]
            && StoredAnswer(run, true, items) == text
  {
    var lines := [Payload(Some(Piece(text, true)), true)];
    var items := Items(lines);
    assert lines[0..] == lines;
    ItemsAt(lines, 0);
    assert items == [TokenItem(Piece(text, true)), DoneItem];
    assert items[1..] == [DoneItem] && items[1..][1..] == [];
    assert Sent(items[1..][1..]) == [] && Sent(items[1..]) == [] + Sent(items[1..][1..]);
    Seqs.Units([Token(text)]);
    assert Sent(items) == [Token(text)] + Sent(items[1..]);
    assert AllSendable(items);
    var run := Emission(metadata, true, items, ending, messageId);
    assert run == [metadata, Token(text), Last(Complete, messageId)];
    StoredIsSentIff(metadata, true, items, ending, messageId);
    assert Texts(items) == text + Texts(items[1..]) && Texts(items[1..]) == "" + Texts([]);
    Seqs.Units(text);
  }
}
