/** The whole conversation of the relay at one glance: its log and its result, for every peer and however many writes
    succeed, read off the messages alone. What is said to a message depends only on what was heard before it. */
module Dialogue {
  import opened Bytes
  import opened Relay

  datatype Phase = Greeting | Waiting | Listening

  predicate Shaken(heard: seq<Message>) {
    Version(true) in heard && VerAck in heard
  }

  /** Some message that came after the handshake asked for the transaction. */
  predicate Asked(heard: seq<Message>, hash: Hash) {
    exists k :: 0 <= k < |heard| && Shaken(heard[..k]) && Asks(Received(heard[k]), hash)
  }

  function PhaseAfter(heard: seq<Message>, hash: Hash): Phase {
    if !Shaken(heard) then Greeting else if !Asked(heard, hash) then Waiting else Listening
  }

  /** A message that does not decode, where it is looked into. */
  predicate Fatal(p: Phase, m: Message) {
    m == Ping(None) || (p == Greeting && m == Version(false)) || (p == Waiting && m == GetData(None))
  }

  /** The request, if nobody listens to what comes after it. */
  predicate Final(p: Phase, m: Message, hash: Hash, listens: bool) {
    p == Waiting && Asks(Received(m), hash) && !listens
  }

  function Answer(p: Phase, m: Message, hash: Hash): seq<Event> {
    match m
    case Version(_) => if p == Greeting then [Sent(Acknowledge)] else []
    case Ping(Some(nonce)) => [Sent(Pong(nonce))]
    case GetData(_) => if p == Waiting && Asks(Received(m), hash) then [Sent(Transaction(hash))] else []
    case _ => []
  }

  /** A message, the answer to it, and the announcement if it completed the handshake. */
  function Exchange(heard: seq<Message>, m: Message, hash: Hash): seq<Event> {
    [Received(m)] + Answer(PhaseAfter(heard, hash), m, hash) +
    if !Shaken(heard) && Shaken(heard + [m]) then [Sent(Announce(hash))] else []
  }

  /** All that is said when these messages are heard and none of them ends the conversation before the last. */
  function Transcript(heard: seq<Message>, hash: Hash): seq<Event> {
    if heard == [] then [Sent(Hello)]
    else
      var n := |heard| - 1;
      Transcript(heard[..n], hash) + Exchange(heard[..n], heard[n], hash)
  }

  function Sents(log: seq<Event>): nat {
    if log == [] then 0 else Sents(log[..|log| - 1]) + if log[|log| - 1].Sent? then 1 else 0
  }

  /** None of the first n messages ends the conversation. */
  predicate GoesOn(inbox: seq<Message>, n: nat, hash: Hash, listens: bool)
    requires n <= |inbox|
  {
    forall k :: 0 <= k < n ==>
      !Fatal(PhaseAfter(inbox[..k], hash), inbox[k]) && !Final(PhaseAfter(inbox[..k], hash), inbox[k], hash, listens)
  }

  /** Writing failed within the exchange of the last message, or at the very start. */
  predicate Cut(inbox: seq<Message>, n: nat, hash: Hash, log: seq<Event>)
    requires n <= |inbox|
  {
    && log < Transcript(inbox[..n], hash) && Transcript(inbox[..n], hash)[|log|].Sent?
    && (n > 0 ==> Transcript(inbox[..n - 1], hash) < log)
  }

  /** How the conversation that starts with l ends after n messages. */
  predicate Ends(l: Line, hash: Hash, listens: bool, timesOut: bool, n: nat, o: Outcome) {
    && n <= |l.inbox| && o.line.inbox == l.inbox[n..] && o.line.writes + Sents(o.line.log) == l.writes
    && (n > 0 ==> GoesOn(l.inbox, n - 1, hash, listens))
    && var last := if n > 0 then PhaseAfter(l.inbox[..n - 1], hash) else Greeting;
    if n > 0 && Fatal(last, l.inbox[n - 1]) then
      && o.result == Failed(Undecodable)
      && o.line.log == Transcript(l.inbox[..n - 1], hash) + [Received(l.inbox[n - 1])]
    else if o.result == Failed(NotSent) then
      o.line.writes == 0 && Cut(l.inbox, n, hash, o.line.log)
    else
      && o.line.log == Transcript(l.inbox[..n], hash)
      && if n > 0 && Final(last, l.inbox[n - 1], hash, listens) then
           o.result == Done
         else
           && n == |l.inbox|
           && o.result == if timesOut && PhaseAfter(l.inbox, hash) == Listening then Done else Failed(NotRead)
  }

  /** In the middle of the conversation that started with l0: n messages have been heard and dealt with. */
  predicate Midway(l0: Line, hash: Hash, listens: bool, n: nat, l: Line) {
    && n <= |l0.inbox| && l.inbox == l0.inbox[n..] && l.writes + Sents(l.log) == l0.writes
    && GoesOn(l0.inbox, n, hash, listens) && l.log == Transcript(l0.inbox[..n], hash)
  }

  lemma ShakenNext(heard: seq<Message>, m: Message)
    ensures Shaken(heard + [m]) <==>
            (Version(true) in heard || m == Version(true)) && (VerAck in heard || m == VerAck)
  {
  }

  lemma AskedNext(heard: seq<Message>, m: Message, hash: Hash)
    ensures Asked(heard + [m], hash) <==> Asked(heard, hash) || (Shaken(heard) && Asks(Received(m), hash))
  {
    hide Shaken, Asks;
    var more := heard + [m];
    assert more[..|heard|] == heard && more[|heard|] == m;
    assert forall k :: 0 <= k < |heard| ==> more[..k] == heard[..k] && more[k] == heard[k];
  }

  lemma TranscriptNext(inbox: seq<Message>, n: nat, hash: Hash)
    requires n < |inbox|
    ensures inbox[..n + 1] == inbox[..n] + [inbox[n]]
    ensures Transcript(inbox[..n + 1], hash) == Transcript(inbox[..n], hash) + Exchange(inbox[..n], inbox[n], hash)
  {
    hide Exchange;
    assert inbox[..n + 1][..n] == inbox[..n];
  }

  lemma SentsNext(log: seq<Event>, e: Event)
    ensures Sents(log + [e]) == Sents(log) + if e.Sent? then 1 else 0
  {
    assert (log + [e])[..|log|] == log;
  }

  lemma GoesOnNext(inbox: seq<Message>, n: nat, hash: Hash, listens: bool)
    requires n < |inbox| && GoesOn(inbox, n, hash, listens)
    requires var p := PhaseAfter(inbox[..n], hash); !Fatal(p, inbox[n]) && !Final(p, inbox[n], hash, listens)
    ensures GoesOn(inbox, n + 1, hash, listens)
  {
    hide Fatal, Final, PhaseAfter;
  }

  lemma AskedShaken(heard: seq<Message>, hash: Hash)
    requires Asked(heard, hash)
    ensures Shaken(heard)
  {
    hide Asks;
    var k :| 0 <= k < |heard| && Shaken(heard[..k]) && Asks(Received(heard[k]), hash);
  }

  /** The phase moves on with the message that completes the handshake and with the request. */
  lemma PhaseNext(inbox: seq<Message>, n: nat, hash: Hash)
    requires n < |inbox|
    ensures PhaseAfter(inbox[..n + 1], hash) ==
            match PhaseAfter(inbox[..n], hash)
            case Greeting => if Shaken(inbox[..n + 1]) then Waiting else Greeting
            case Waiting => if Asks(Received(inbox[n]), hash) then Listening else Waiting
            case Listening => Listening
  {
    hide Shaken, Asked, Asks;
    var heard := inbox[..n];
    assert inbox[..n + 1] == heard + [inbox[n]];
    ShakenGrows(heard, inbox[n]);
    AskedNext(heard, inbox[n], hash);
    if Asked(heard, hash) {
      AskedShaken(heard, hash);
    }
  }

  lemma ShakenGrows(heard: seq<Message>, m: Message)
    ensures Shaken(heard) ==> Shaken(heard + [m])
  {
  }

  /** A message that nothing is said to. */
  lemma Passed(l0: Line, hash: Hash, listens: bool, n: nat, l: Line)
    requires Midway(l0, hash, listens, n, l) && l.inbox != []
    requires Exchange(l0.inbox[..n], l.inbox[0], hash) == [Received(l.inbox[0])]
    requires var p := PhaseAfter(l0.inbox[..n], hash); !Fatal(p, l.inbox[0]) && !Final(p, l.inbox[0], hash, listens)
    ensures Midway(l0, hash, listens, n + 1, l.Read())
  {
    hide Fatal, Final, PhaseAfter, Exchange, Transcript, Sents, GoesOn;
    TranscriptNext(l0.inbox, n, hash);
    SentsNext(l.log, Received(l.inbox[0]));
    GoesOnNext(l0.inbox, n, hash, listens);
  }

  /** A message with one answer, which is written or not. */
  lemma Replied(l0: Line, hash: Hash, listens: bool, timesOut: bool, n: nat, l: Line, reply: Reply)
    requires Midway(l0, hash, listens, n, l) && l.inbox != []
    requires Exchange(l0.inbox[..n], l.inbox[0], hash) == [Received(l.inbox[0]), Sent(reply)]
    requires !Fatal(PhaseAfter(l0.inbox[..n], hash), l.inbox[0])
    ensures var r := l.Read();
            if r.writes == 0 then Ends(l0, hash, listens, timesOut, n + 1, Outcome(r, Failed(NotSent)))
            else if Final(PhaseAfter(l0.inbox[..n], hash), l.inbox[0], hash, listens) then
              Ends(l0, hash, listens, timesOut, n + 1, Outcome(r.Write(reply), Done))
            else Midway(l0, hash, listens, n + 1, r.Write(reply))
  {
    hide Fatal, Final, PhaseAfter, Exchange, Transcript, Sents, GoesOn;
    var m := l.inbox[0];
    var r := l.Read();
    TranscriptNext(l0.inbox, n, hash);
    SentsNext(l.log, Received(m));
    SentsNext(r.log, Sent(reply));
    assert r.log + [Sent(reply)] == Transcript(l0.inbox[..n + 1], hash);
    if !Final(PhaseAfter(l0.inbox[..n], hash), m, hash, listens) {
      GoesOnNext(l0.inbox, n, hash, listens);
    }
  }

  lemma Refused(l0: Line, hash: Hash, listens: bool, timesOut: bool, n: nat, l: Line)
    requires Midway(l0, hash, listens, n, l) && l.inbox != []
    requires Fatal(PhaseAfter(l0.inbox[..n], hash), l.inbox[0])
    ensures Ends(l0, hash, listens, timesOut, n + 1, Outcome(l.Read(), Failed(Undecodable)))
  {
    hide Fatal, Final, PhaseAfter, Exchange, Transcript, Sents, GoesOn;
    SentsNext(l.log, Received(l.inbox[0]));
    assert l.Read().inbox == l0.inbox[n + 1..] && l0.inbox[n] == l.inbox[0];
  }

  lemma RunsDry(l0: Line, hash: Hash, listens: bool, timesOut: bool, n: nat, l: Line)
    requires Midway(l0, hash, listens, n, l) && l.inbox == []
    ensures var result := if timesOut && PhaseAfter(l0.inbox[..n], hash) == Listening then Done else Failed(NotRead);
            Ends(l0, hash, listens, timesOut, n, Outcome(l, result))
  {
    hide Fatal, Final, PhaseAfter, Transcript, Sents;
    assert l0.inbox[..n] == l0.inbox;
  }

  /** After the handshake there is a message and its answer. */
  lemma ExchangeIs(heard: seq<Message>, m: Message, hash: Hash)
    requires PhaseAfter(heard, hash) != Greeting
    ensures Exchange(heard, m, hash) == [Received(m)] + Answer(PhaseAfter(heard, hash), m, hash)
  {
    hide Asked, Answer, Shaken;
    var said := [Received(m)] + Answer(PhaseAfter(heard, hash), m, hash);
    assert said + [] == said;
  }

  lemma {:induction false} ListenEnds(l0: Line, hash: Hash, timesOut: bool, n: nat, l: Line) returns (m: nat)
    requires Midway(l0, hash, true, n, l) && PhaseAfter(l0.inbox[..n], hash) == Listening
    ensures Ends(l0, hash, true, timesOut, m, Listen(l, timesOut))
    decreases |l.inbox|
  {
    hide PhaseAfter, Exchange, Transcript, Sents, GoesOn, Asks, Ends;
    if l.inbox == [] {
      m := n;
      RunsDry(l0, hash, true, timesOut, n, l);
    } else {
      var r := l.Read();
      PhaseNext(l0.inbox, n, hash);
      ExchangeIs(l0.inbox[..n], l.inbox[0], hash);
      match l.inbox[0] {
        case Ping(Some(nonce)) =>
          m := n + 1;
          Replied(l0, hash, true, timesOut, n, l, Pong(nonce));
          if r.writes > 0 {
            m := ListenEnds(l0, hash, timesOut, n + 1, r.Write(Pong(nonce)));
          }
        case Ping(None) =>
          m := n + 1;
          Refused(l0, hash, true, timesOut, n, l);
        case _ =>
          Passed(l0, hash, true, n, l);
          m := ListenEnds(l0, hash, timesOut, n + 1, r);
      }
    }
  }

  lemma {:induction false} ServeEnds(l0: Line, hash: Hash, listens: bool, timesOut: bool, n: nat, l: Line)
    returns (m: nat)
    requires Midway(l0, hash, listens, n, l) && PhaseAfter(l0.inbox[..n], hash) == Waiting
    ensures Ends(l0, hash, listens, timesOut, m, Serve(l, hash, listens, timesOut))
    decreases |l.inbox|
  {
    hide PhaseAfter, Exchange, Transcript, Sents, GoesOn, Names, Ends;
    if l.inbox == [] {
      m := n;
      RunsDry(l0, hash, listens, timesOut, n, l);
    } else {
      var r := l.Read();
      PhaseNext(l0.inbox, n, hash);
      ExchangeIs(l0.inbox[..n], l.inbox[0], hash);
      match l.inbox[0] {
        case Ping(Some(nonce)) =>
          m := n + 1;
          Replied(l0, hash, listens, timesOut, n, l, Pong(nonce));
          if r.writes > 0 {
            m := ServeEnds(l0, hash, listens, timesOut, n + 1, r.Write(Pong(nonce)));
          }
        case GetData(Some(items)) =>
          m := n + 1;
          if Names(items, hash) {
            Replied(l0, hash, listens, timesOut, n, l, Transaction(hash));
            if r.writes > 0 && listens {
              m := ListenEnds(l0, hash, timesOut, n + 1, r.Write(Transaction(hash)));
            }
          } else {
            Passed(l0, hash, listens, n, l);
            m := ServeEnds(l0, hash, listens, timesOut, n + 1, r);
          }
        case Ping(None) =>
          m := n + 1;
          Refused(l0, hash, listens, timesOut, n, l);
        case GetData(None) =>
          m := n + 1;
          Refused(l0, hash, listens, timesOut, n, l);
        case _ =>
          Passed(l0, hash, listens, n, l);
          m := ServeEnds(l0, hash, listens, timesOut, n + 1, r);
      }
    }
  }

  /** The handshake is over but for the announcement. */
  predicate AboutToAnnounce(l0: Line, hash: Hash, listens: bool, n: nat, l: Line) {
    && 0 < n <= |l0.inbox| && l.inbox == l0.inbox[n..] && l.writes + Sents(l.log) == l0.writes
    && GoesOn(l0.inbox, n, hash, listens) && l.log + [Sent(Announce(hash))] == Transcript(l0.inbox[..n], hash)
    && PhaseAfter(l0.inbox[..n], hash) == Waiting && Transcript(l0.inbox[..n - 1], hash) < l.log
    && !Fatal(PhaseAfter(l0.inbox[..n - 1], hash), l0.inbox[n - 1])
  }

  lemma CompletedExchange(inbox: seq<Message>, n: nat, hash: Hash)
    requires n < |inbox| && PhaseAfter(inbox[..n], hash) == Greeting && Shaken(inbox[..n + 1])
    ensures Transcript(inbox[..n + 1], hash) ==
            Transcript(inbox[..n], hash) + ([Received(inbox[n])] + Answer(Greeting, inbox[n], hash) +
                                            [Sent(Announce(hash))])
  {
    TranscriptNext(inbox, n, hash);
    hide Transcript, Answer, Asked;
  }

  lemma CompletedGoesOn(inbox: seq<Message>, n: nat, hash: Hash, listens: bool)
    requires n < |inbox| && PhaseAfter(inbox[..n], hash) == Greeting && Shaken(inbox[..n + 1])
    requires GoesOn(inbox, n, hash, listens) && !Fatal(Greeting, inbox[n])
    ensures GoesOn(inbox, n + 1, hash, listens) && PhaseAfter(inbox[..n + 1], hash) == Waiting
  {
    hide Fatal, PhaseAfter, Shaken, GoesOn;
    PhaseNext(inbox, n, hash);
    GoesOnNext(inbox, n, hash, listens);
  }

  /** The message that completes the handshake, when it gets no answer of its own. */
  lemma CompletedByVerAck(l0: Line, hash: Hash, listens: bool, n: nat, l: Line)
    requires Midway(l0, hash, listens, n, l) && l.inbox != [] && l.inbox[0] == VerAck
    requires PhaseAfter(l0.inbox[..n], hash) == Greeting && Shaken(l0.inbox[..n + 1])
    ensures AboutToAnnounce(l0, hash, listens, n + 1, l.Read())
  {
    hide Transcript, Sents, GoesOn, PhaseAfter, Shaken;
    CompletedExchange(l0.inbox, n, hash);
    CompletedGoesOn(l0.inbox, n, hash, listens);
    SentsNext(l.log, Received(VerAck));
    assert l.Read().log + [Sent(Announce(hash))] == Transcript(l0.inbox[..n + 1], hash);
  }

  /** And when it gets one. */
  lemma CompletedByVersion(l0: Line, hash: Hash, listens: bool, timesOut: bool, n: nat, l: Line)
    requires Midway(l0, hash, listens, n, l) && l.inbox != [] && l.inbox[0] == Version(true)
    requires PhaseAfter(l0.inbox[..n], hash) == Greeting && Shaken(l0.inbox[..n + 1])
    ensures var r := l.Read();
            if r.writes > 0 then AboutToAnnounce(l0, hash, listens, n + 1, r.Write(Acknowledge))
            else Ends(l0, hash, listens, timesOut, n + 1, Outcome(r, Failed(NotSent)))
  {
    hide Transcript, Sents, GoesOn, PhaseAfter, Shaken;
    CompletedExchange(l0.inbox, n, hash);
    CompletedGoesOn(l0.inbox, n, hash, listens);
    var r := l.Read();
    SentsNext(l.log, Received(Version(true)));
    SentsNext(r.log, Sent(Acknowledge));
    var w := r.log + [Sent(Acknowledge)];
    assert w + [Sent(Announce(hash))] == Transcript(l0.inbox[..n + 1], hash);
  }

  /** What was heard so far has not completed the handshake, of which these parts have happened. */
  predicate Greets(heard: seq<Message>, version: bool, verack: bool) {
    (version <==> Version(true) in heard) && (verack <==> VerAck in heard)
  }

  lemma {:induction false} ShakeEnds(l0: Line, hash: Hash, listens: bool, timesOut: bool, n: nat, l: Line,
                                     version: bool, verack: bool) returns (m: nat)
    requires Midway(l0, hash, listens, n, l) && Greets(l0.inbox[..n], version, verack) && !(version && verack)
    ensures var o := Shake(l, version, verack);
            if o.result == Done then AboutToAnnounce(l0, hash, listens, m, o.line)
            else Ends(l0, hash, listens, timesOut, m, o)
    decreases |l.inbox|
  {
    hide Exchange, Transcript, Sents, GoesOn, Ends, AboutToAnnounce, Asked;
    if l.inbox == [] {
      m := n;
      RunsDry(l0, hash, listens, timesOut, n, l);
    } else {
      var r := l.Read();
      assert l0.inbox[..n + 1] == l0.inbox[..n] + [l.inbox[0]];
      m := n + 1;
      match l.inbox[0] {
        case Version(decodes) =>
          if !decodes {
            Refused(l0, hash, listens, timesOut, n, l);
          } else if verack {
            CompletedByVersion(l0, hash, listens, timesOut, n, l);
          } else {
            GreetingExchange(l0.inbox[..n], l.inbox[0], hash);
            Replied(l0, hash, listens, timesOut, n, l, Acknowledge);
            if r.writes > 0 {
              m := ShakeEnds(l0, hash, listens, timesOut, n + 1, r.Write(Acknowledge), true, verack);
            }
          }
        case VerAck =>
          if version {
            CompletedByVerAck(l0, hash, listens, n, l);
          } else {
            GreetingExchange(l0.inbox[..n], l.inbox[0], hash);
            Passed(l0, hash, listens, n, l);
            m := ShakeEnds(l0, hash, listens, timesOut, n + 1, r, version, true);
          }
        case Ping(Some(nonce)) =>
          GreetingExchange(l0.inbox[..n], l.inbox[0], hash);
          Replied(l0, hash, listens, timesOut, n, l, Pong(nonce));
          if r.writes > 0 {
            m := ShakeEnds(l0, hash, listens, timesOut, n + 1, r.Write(Pong(nonce)), version, verack);
          }
        case Ping(None) => Refused(l0, hash, listens, timesOut, n, l);
        case _ =>
          GreetingExchange(l0.inbox[..n], l.inbox[0], hash);
          Passed(l0, hash, listens, n, l);
          m := ShakeEnds(l0, hash, listens, timesOut, n + 1, r, version, verack);
      }
    }
  }

  lemma GreetingExchange(heard: seq<Message>, m: Message, hash: Hash)
    requires !Shaken(heard + [m])
    ensures Exchange(heard, m, hash) == [Received(m)] + Answer(Greeting, m, hash)
  {
    ShakenGrows(heard, m);
    hide Asked, Answer, Shaken;
    var said := [Received(m)] + Answer(Greeting, m, hash);
    assert said + [] == said;
  }

  lemma Opens(l: Line, hash: Hash, listens: bool, timesOut: bool)
    requires l.log == []
    ensures l.writes == 0 ==> Ends(l, hash, listens, timesOut, 0, Outcome(l, Failed(NotSent)))
    ensures l.writes > 0 ==> Midway(l, hash, listens, 0, l.Write(Hello)) && Greets(l.inbox[..0], false, false)
  {
    hide Fatal, Final;
    SentsNext([], Sent(Hello));
  }

  lemma NotAnnounced(l0: Line, hash: Hash, listens: bool, timesOut: bool, n: nat, l: Line)
    requires AboutToAnnounce(l0, hash, listens, n, l) && l.writes == 0
    ensures Ends(l0, hash, listens, timesOut, n, Outcome(l, Failed(NotSent)))
  {
    hide Fatal, Final, PhaseAfter, Transcript, Sents;
  }

  lemma AnnouncedMidway(l0: Line, hash: Hash, listens: bool, n: nat, l: Line)
    requires AboutToAnnounce(l0, hash, listens, n, l) && l.writes > 0
    ensures Midway(l0, hash, listens, n, l.Write(Announce(hash))) && PhaseAfter(l0.inbox[..n], hash) == Waiting
  {
    hide Fatal, Final, PhaseAfter, Transcript, Sents, GoesOn;
    SentsNext(l.log, Sent(Announce(hash)));
  }

  /** Whatever the peer sends and however many writes succeed, this is how the conversation goes and ends. */
  lemma ConversationEnds(l: Line, hash: Hash, listens: bool, timesOut: bool) returns (n: nat)
    requires l.log == []
    ensures Ends(l, hash, listens, timesOut, n, Conversation(l, hash, listens, timesOut))
  {
    hide Ends, Midway, AboutToAnnounce, Greets, PhaseAfter, Shake, Serve;
    n := 0;
    Opens(l, hash, listens, timesOut);
    if l.writes > 0 {
      n := ShakeEnds(l, hash, listens, timesOut, 0, l.Write(Hello), false, false);
      var s := Shake(l.Write(Hello), false, false);
      if s.result == Done && s.line.writes == 0 {
        NotAnnounced(l, hash, listens, timesOut, n, s.line);
      } else if s.result == Done {
        AnnouncedMidway(l, hash, listens, n, s.line);
        n := ServeEnds(l, hash, listens, timesOut, n, s.line.Write(Announce(hash)));
      }
    }
  }

  // There is only one such end.

  lemma {:induction false} SentsGrow(log: seq<Event>, more: seq<Event>)
    requires log <= more
    ensures Sents(log) <= Sents(more)
    ensures log < more && more[|log|].Sent? ==> Sents(log) < Sents(more)
  {
    if log == more {
    } else {
      var early := more[..|more| - 1];
      SentsGrow(log, early);
      if |log| == |early| {
        assert log == early;
      }
    }
  }

  lemma {:induction false} TranscriptGrows(inbox: seq<Message>, m: nat, n: nat, hash: Hash)
    requires m <= n <= |inbox|
    ensures Transcript(inbox[..m], hash) <= Transcript(inbox[..n], hash)
  {
    hide Transcript, Exchange;
    if m < n {
      TranscriptGrows(inbox, m, n - 1, hash);
      TranscriptNext(inbox, n - 1, hash);
    }
  }

  /** An end after n messages has all that was said up to the last of them in its log. */
  lemma LogHolds(l: Line, hash: Hash, listens: bool, timesOut: bool, m: nat, n: nat, o: Outcome)
    requires Ends(l, hash, listens, timesOut, n, o) && m < n
    ensures Transcript(l.inbox[..m], hash) <= o.line.log && Sents(Transcript(l.inbox[..m], hash)) <= l.writes
  {
    hide Transcript, Fatal, Final, PhaseAfter, GoesOn;
    TranscriptGrows(l.inbox, m, n - 1, hash);
    TranscriptGrows(l.inbox, n - 1, n, hash);
    SentsGrow(Transcript(l.inbox[..m], hash), o.line.log);
  }

  lemma CutTooShort(inbox: seq<Message>, n: nat, hash: Hash, log: seq<Event>)
    requires n <= |inbox| && Cut(inbox, n, hash, log)
    ensures Sents(log) < Sents(Transcript(inbox[..n], hash))
  {
    hide Transcript;
    SentsGrow(log, Transcript(inbox[..n], hash));
  }

  lemma NotLater(l: Line, hash: Hash, listens: bool, timesOut: bool, m: nat, o: Outcome, n: nat, p: Outcome)
    requires Ends(l, hash, listens, timesOut, m, o) && Ends(l, hash, listens, timesOut, n, p)
    ensures n <= m
  {
    hide Transcript, Fatal, Final, PhaseAfter, Sents;
    if m < n {
      LogHolds(l, hash, listens, timesOut, m, n, p);
      if Cut(l.inbox, m, hash, o.line.log) {
        CutTooShort(l.inbox, m, hash, o.line.log);
      }
    }
  }

  lemma OneCut(inbox: seq<Message>, n: nat, hash: Hash, log: seq<Event>, other: seq<Event>)
    requires n <= |inbox| && Cut(inbox, n, hash, log) && Cut(inbox, n, hash, other) && Sents(log) == Sents(other)
    ensures log == other
  {
    hide Transcript;
    if |log| < |other| {
      SentsGrow(log, other);
    } else {
      SentsGrow(other, log);
    }
  }

  /** The messages, the number of writes and what is asked for determine the log, the result and all that is left. */
  lemma OneEnd(l: Line, hash: Hash, listens: bool, timesOut: bool, m: nat, o: Outcome, n: nat, p: Outcome)
    requires Ends(l, hash, listens, timesOut, m, o) && Ends(l, hash, listens, timesOut, n, p)
    ensures m == n && o == p
  {
    hide Transcript, Fatal, Final, PhaseAfter, Sents;
    NotLater(l, hash, listens, timesOut, m, o, n, p);
    NotLater(l, hash, listens, timesOut, n, p, m, o);
    if Cut(l.inbox, m, hash, o.line.log) {
      CutTooShort(l.inbox, m, hash, o.line.log);
    }
    if Cut(l.inbox, m, hash, p.line.log) {
      CutTooShort(l.inbox, m, hash, p.line.log);
      if Cut(l.inbox, m, hash, o.line.log) {
        OneCut(l.inbox, m, hash, o.line.log, p.line.log);
      }
    }
  }

  /** A conversation goes and ends in this way, and in no other. */
  lemma ConversationExactly(l: Line, hash: Hash, listens: bool, timesOut: bool, o: Outcome)
    requires l.log == []
    ensures o == Conversation(l, hash, listens, timesOut) <==>
            exists n: nat :: Ends(l, hash, listens, timesOut, n, o)
  {
    hide Ends, Conversation;
    var n := ConversationEnds(l, hash, listens, timesOut);
    if m: nat :| Ends(l, hash, listens, timesOut, m, o) {
      OneEnd(l, hash, listens, timesOut, m, o, n, Conversation(l, hash, listens, timesOut));
    }
  }

  // What the caller is told.

  lemma AnswerSends(p: Phase, m: Message, hash: Hash)
    ensures Sent(Transaction(hash)) in Answer(p, m, hash) <==> p == Waiting && Asks(Received(m), hash)
  {
    hide Names;
  }

  lemma {:induction false} TransactionInTranscript(heard: seq<Message>, hash: Hash)
    ensures Sent(Transaction(hash)) in Transcript(heard, hash) <==> Asked(heard, hash)
  {
    if heard != [] {
      var n := |heard| - 1;
      var h, m := heard[..n], heard[n];
      assert heard == h + [m];
      TransactionInTranscript(h, hash);
      AskedNext(h, m, hash);
      AnswerSends(PhaseAfter(h, hash), m, hash);
      if Asked(h, hash) {
        AskedShaken(h, hash);
      }
      hide Asked, Answer, Shaken, Asks;
    }
  }

  /** The request is final when nobody listens. */
  lemma {:induction false} NotAskedYet(inbox: seq<Message>, n: nat, hash: Hash)
    requires n <= |inbox| && GoesOn(inbox, n, hash, false)
    ensures !Asked(inbox[..n], hash)
  {
    hide Asks, Shaken;
    if n > 0 {
      NotAskedYet(inbox, n - 1, hash);
      assert inbox[..n] == inbox[..n - 1] + [inbox[n - 1]];
      AskedNext(inbox[..n - 1], inbox[n - 1], hash);
    }
  }

  lemma CutAtStart(inbox: seq<Message>, hash: Hash, log: seq<Event>)
    requires Cut(inbox, 0, hash, log)
    ensures log == []
  {
  }

  /** What was not there before the exchange and is its last event is not there when the exchange is cut off. */
  lemma CutInExchange(before: seq<Event>, received: Event, answer: Event, log: seq<Event>)
    requires before < log < before + [received, answer] && received.Received?
    ensures forall e :: e in log && e.Sent? ==> e in before
  {
    assert log == before + [received];
  }

  /** An exchange that was cut off did not get to the transaction. */
  lemma CutBefore(inbox: seq<Message>, n: nat, hash: Hash, log: seq<Event>)
    requires n <= |inbox| && Cut(inbox, n, hash, log) && Sent(Transaction(hash)) in log
    ensures n > 0 && Asked(inbox[..n - 1], hash)
  {
    hide Transcript, Asked, Asks, Names, Shaken, Exchange, PhaseAfter, Answer;
    if n == 0 {
      CutAtStart(inbox, hash, log);
    } else {
      var h, m := inbox[..n - 1], inbox[n - 1];
      TranscriptNext(inbox, n - 1, hash);
      TransactionInTranscript(h, hash);
      TransactionInTranscript(inbox[..n], hash);
      AskedNext(h, m, hash);
      if !Asked(h, hash) {
        RequestExchange(h, m, hash);
        CutInExchange(Transcript(h, hash), Received(m), Sent(Transaction(hash)), log);
      }
    }
  }

  lemma RequestExchange(heard: seq<Message>, m: Message, hash: Hash)
    requires Shaken(heard) && !Asked(heard, hash) && Asks(Received(m), hash)
    ensures Exchange(heard, m, hash) == [Received(m), Sent(Transaction(hash))]
  {
    hide Shaken, Asked, Names;
    ExchangeIs(heard, m, hash);
  }

  lemma FinalAsked(inbox: seq<Message>, n: nat, hash: Hash)
    requires 0 < n <= |inbox| && PhaseAfter(inbox[..n - 1], hash) == Waiting && Asks(Received(inbox[n - 1]), hash)
    ensures Asked(inbox[..n], hash)
  {
    hide Asked, Asks;
    assert inbox[..n] == inbox[..n - 1] + [inbox[n - 1]];
    AskedNext(inbox[..n - 1], inbox[n - 1], hash);
  }

  lemma PingsDecode(inbox: seq<Message>, n: nat, hash: Hash, listens: bool)
    requires n == |inbox| && (n > 0 ==> GoesOn(inbox, n - 1, hash, listens))
    requires n > 0 ==> !Fatal(PhaseAfter(inbox[..n - 1], hash), inbox[n - 1])
    ensures Ping(None) !in inbox
  {
    hide PhaseAfter, Final;
    forall k | 0 <= k < n
      ensures inbox[k] != Ping(None)
    {
      assert !Fatal(PhaseAfter(inbox[..k], hash), inbox[k]);
    }
  }

  lemma DoneSends(l: Line, hash: Hash, listens: bool, timesOut: bool, n: nat, o: Outcome)
    requires Ends(l, hash, listens, timesOut, n, o) && o.result == Done
    ensures Sends(o, hash) && (listens ==> timesOut && n == |l.inbox| && Ping(None) !in l.inbox)
  {
    hide Transcript, Sents, Asks, Asked, Cut, GoesOn, Fatal, Shaken;
    TransactionInTranscript(l.inbox[..n], hash);
    if n > 0 && Final(PhaseAfter(l.inbox[..n - 1], hash), l.inbox[n - 1], hash, listens) {
      FinalAsked(l.inbox, n, hash);
    } else {
      assert l.inbox[..n] == l.inbox;
      PingsDecode(l.inbox, n, hash, listens);
    }
  }

  lemma SendsDone(l: Line, hash: Hash, timesOut: bool, n: nat, o: Outcome)
    requires Ends(l, hash, false, timesOut, n, o) && Sends(o, hash)
    ensures o.result == Done
  {
    hide Transcript, Sents, Asks, Cut;
    assert n == 0 ==> !Asked(l.inbox[..n], hash);
    hide Asked;
    TransactionInTranscript(l.inbox[..n], hash);
    if n > 0 {
      NotAskedYet(l.inbox, n - 1, hash);
      TransactionInTranscript(l.inbox[..n - 1], hash);
      assert l.inbox[..n] == l.inbox[..n - 1] + [l.inbox[n - 1]];
      AskedNext(l.inbox[..n - 1], l.inbox[n - 1], hash);
    }
    if Cut(l.inbox, n, hash, o.line.log) {
      CutBefore(l.inbox, n, hash, o.line.log);
    }
  }

  /** Success means that the transaction was sent; and when nobody listens any longer, sending it means success. */
  lemma DoneMeansSent(l: Line, hash: Hash, listens: bool, timesOut: bool)
    requires l.log == []
    ensures var o := Conversation(l, hash, listens, timesOut);
            (o.result == Done ==> Sends(o, hash)) && (!listens && Sends(o, hash) ==> o.result == Done)
  {
    hide Conversation, Ends, Sends;
    var n := ConversationEnds(l, hash, listens, timesOut);
    var o := Conversation(l, hash, listens, timesOut);
    if o.result == Done {
      DoneSends(l, hash, listens, timesOut, n, o);
    }
    if !listens && Sends(o, hash) {
      SendsDone(l, hash, timesOut, n, o);
    }
  }

  lemma {:induction false} SentsAppend(log: seq<Event>, more: seq<Event>)
    ensures Sents(log + more) <= Sents(log) + |more|
  {
    if more == [] {
      assert log + more == log;
    } else {
      var early := more[..|more| - 1];
      SentsAppend(log, early);
      assert log + more == log + early + [more[|more| - 1]];
      SentsNext(log + early, more[|more| - 1]);
    }
  }

  lemma ExchangeSents(log: seq<Event>, heard: seq<Message>, m: Message, hash: Hash)
    ensures Sents(log + Exchange(heard, m, hash)) <=
            Sents(log) + if !Shaken(heard) && Shaken(heard + [m]) then 2 else 1
  {
    hide Shaken, Asked, Asks, Sents;
    var a := Answer(PhaseAfter(heard, hash), m, hash);
    assert |a| <= 1;
    hide Answer;
    var b := Exchange(heard, m, hash)[1 + |a|..];
    assert log + Exchange(heard, m, hash) == log + [Received(m)] + (a + b);
    SentsNext(log, Received(m));
    SentsAppend(log + [Received(m)], a + b);
  }

  /** A conversation writes at most once for each message, and twice more. */
  lemma {:induction false} FewWrites(heard: seq<Message>, hash: Hash)
    ensures Sents(Transcript(heard, hash)) <= |heard| + if Shaken(heard) then 2 else 1
  {
    if heard == [] {
      SentsNext([], Sent(Hello));
    } else {
      hide Exchange, Shaken, Sents;
      var n := |heard| - 1;
      assert heard == heard[..n] + [heard[n]];
      FewWrites(heard[..n], hash);
      ExchangeSents(Transcript(heard[..n], hash), heard[..n], heard[n], hash);
      ShakenGrows(heard[..n], heard[n]);
    }
  }

  lemma NotCut(l: Line, hash: Hash, listens: bool, timesOut: bool, n: nat, o: Outcome)
    requires Ends(l, hash, listens, timesOut, n, o) && l.writes >= |l.inbox| + 2
    ensures o.result != Failed(NotSent)
  {
    hide Transcript, Sents, Fatal, Final, PhaseAfter;
    if o.result == Failed(NotSent) {
      CutTooShort(l.inbox, n, hash, o.line.log);
      FewWrites(l.inbox[..n], hash);
    }
  }

  /** A peer that was served is heard to the end, if all its pings decode. */
  lemma ServedDone(l: Line, hash: Hash, timesOut: bool, n: nat, o: Outcome)
    requires Ends(l, hash, true, timesOut, n, o) && o.result != Failed(NotSent) && Sends(o, hash)
    requires Ping(None) !in l.inbox && timesOut
    ensures o.result == Done
  {
    hide Transcript, Sents, Asks, Asked, Cut, GoesOn, Shaken;
    TransactionInTranscript(l.inbox[..n], hash);
    if n > 0 && Fatal(PhaseAfter(l.inbox[..n - 1], hash), l.inbox[n - 1]) {
      TransactionInTranscript(l.inbox[..n - 1], hash);
      AskedShaken(l.inbox[..n - 1], hash);
    } else {
      assert l.inbox[..n] == l.inbox;
      AskedShaken(l.inbox, hash);
    }
  }

  /** While writes succeed, the caller is told of success exactly when the peer completed the handshake and then asked
      for the transaction, and, if it is listened to after that, sent proper pings until the time was over. */
  lemma DoneExactly(l: Line, hash: Hash, listens: bool, timesOut: bool)
    requires l.log == [] && l.writes >= |l.inbox| + 2
    ensures Conversation(l, hash, listens, timesOut).result == Done <==>
            && (exists i: nat, j: nat :: Served(l.inbox, hash, i, j))
            && (listens ==> timesOut && Ping(None) !in l.inbox)
  {
    hide Conversation, Ends, Sends, Served;
    var n := ConversationEnds(l, hash, listens, timesOut);
    var o := Conversation(l, hash, listens, timesOut);
    DoneMeansSent(l, hash, listens, timesOut);
    SentExactlyWhenServed(l, hash, listens, timesOut);
    NotCut(l, hash, listens, timesOut, n, o);
    if o.result == Done {
      DoneSends(l, hash, listens, timesOut, n, o);
    }
    if Sends(o, hash) && listens && timesOut && Ping(None) !in l.inbox {
      ServedDone(l, hash, timesOut, n, o);
    }
  }
}
