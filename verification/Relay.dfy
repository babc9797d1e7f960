/** The conversation that hands a transaction to a peer (powcoins/relay.go). */
module Relay {
  import opened Bytes

  // Inventory types of the peer-to-peer protocol.
  const TX := 1
  const WITNESS_TX := 0x4000_0001

  type Hash = string

  datatype InvVect = InvVect(kind: nat, hash: Hash)

  /** What a peer sends, by command; a payload that does not decode is None or false. */
  datatype Message =
    | Version(decodes: bool)
    | VerAck
    | Ping(nonce: Option<nat>)
    | GetData(items: Option<seq<InvVect>>)
    | Unknown

  /** What this side sends. */
  datatype Reply = Hello | Acknowledge | Pong(nonce: nat) | Announce(hash: Hash) | Transaction(hash: Hash)

  datatype Event = Received(message: Message) | Sent(reply: Reply)

  datatype Error = NotSent | NotRead | Undecodable

  datatype Status = Done | Failed(error: Error)

  /** The messages still to come, the number of writes that will succeed, and what has happened so far. */
  datatype Line = Line(inbox: seq<Message>, writes: nat, log: seq<Event>) {
    function Read(): Line
      requires inbox != []
    {
      Line(inbox[1..], writes, log + [Received(inbox[0])])
    }

    function Write(reply: Reply): Line
      requires writes > 0
    {
      Line(inbox, writes - 1, log + [Sent(reply)])
    }
  }

  /** Where a part of the conversation ends, and how. */
  datatype Outcome = Outcome(line: Line, result: Status)

  /** Does the list ask for the transaction, with or without its witness? */
  predicate Names(items: seq<InvVect>, hash: Hash) {
    exists i :: 0 <= i < |items| && (items[i].kind == TX || items[i].kind == WITNESS_TX) && items[i].hash == hash
  }

  // The specification: what each part of the conversation does, message by message.

  function AnswerPing(l: Line, nonce: Option<nat>): Outcome {
    if nonce.None? then Outcome(l, Failed(Undecodable))
    else if l.writes == 0 then Outcome(l, Failed(NotSent))
    else Outcome(l.Write(Pong(nonce.value)), Done)
  }

  /** The handshake, of which version and verack may have been received already. */
  function Shake(l: Line, version: bool, verack: bool): Outcome
    decreases |l.inbox|
  {
    if version && verack then Outcome(l, Done)
    else if l.inbox == [] then Outcome(l, Failed(NotRead))
    else
      var r := l.Read();
      match l.inbox[0]
      case Version(decodes) =>
        if !decodes then Outcome(r, Failed(Undecodable))
        else if r.writes == 0 then Outcome(r, Failed(NotSent))
        else Shake(r.Write(Acknowledge), true, verack)
      case VerAck => Shake(r, version, true)
      case Ping(nonce) =>
        var o := AnswerPing(r, nonce);
        if o.result.Failed? then o else Shake(o.line, version, verack)
      case _ => Shake(r, version, verack)
  }

  /** After the transaction: pings are answered until the time is over. */
  function Listen(l: Line, timesOut: bool): Outcome
    decreases |l.inbox|
  {
    if l.inbox == [] then Outcome(l, if timesOut then Done else Failed(NotRead))
    else
      var r := l.Read();
      if l.inbox[0].Ping? then
        var o := AnswerPing(r, l.inbox[0].nonce);
        if o.result.Failed? then o else Listen(o.line, timesOut)
      else Listen(r, timesOut)
  }

  /** After the announcement: everything but pings and requests is passed over. */
  function Serve(l: Line, hash: Hash, listens: bool, timesOut: bool): Outcome
    decreases |l.inbox|
  {
    if l.inbox == [] then Outcome(l, Failed(NotRead))
    else
      var r := l.Read();
      match l.inbox[0]
      case Ping(nonce) =>
        var o := AnswerPing(r, nonce);
        if o.result.Failed? then o else Serve(o.line, hash, listens, timesOut)
      case GetData(items) =>
        if items.None? then Outcome(r, Failed(Undecodable))
        else if !Names(items.value, hash) then Serve(r, hash, listens, timesOut)
        else if r.writes == 0 then Outcome(r, Failed(NotSent))
        else if listens then Listen(r.Write(Transaction(hash)), timesOut)
        else Outcome(r.Write(Transaction(hash)), Done)
      case _ => Serve(r, hash, listens, timesOut)
  }

  /** The whole conversation. */
  function Conversation(l: Line, hash: Hash, listens: bool, timesOut: bool): Outcome {
    if l.writes == 0 then Outcome(l, Failed(NotSent))
    else
      var s := Shake(l.Write(Hello), false, false);
      if s.result.Failed? then s
      else if s.line.writes == 0 then Outcome(s.line, Failed(NotSent))
      else Serve(s.line.Write(Announce(hash)), hash, listens, timesOut)
  }

  /** The connection to the peer: reading takes a message away, writing may fail. */
  class Connection {
    var inbox: seq<Message>
    var writes: nat
    var log: seq<Event>
    const timesOut: bool

    constructor (inbox: seq<Message>, writes: nat, timesOut: bool)
      ensures Now() == Line(inbox, writes, []) && this.timesOut == timesOut
    {
      this.inbox, this.writes, this.log, this.timesOut := inbox, writes, [], timesOut;
    }

    function Now(): Line
      reads this
    {
      Line(inbox, writes, log)
    }

    method ReadMessage() returns (message: Option<Message>)
      modifies this
      ensures old(inbox) == [] ==> message == None && Now() == old(Now())
      ensures old(inbox) != [] ==> message == Some(old(inbox)[0]) && Now() == old(Now()).Read()
    {
      if inbox == [] {
        return None;
      }
      message, log, inbox := Some(inbox[0]), log + [Received(inbox[0])], inbox[1..];
    }

    method WriteMessage(reply: Reply) returns (ok: bool)
      modifies this
      ensures ok == (old(writes) > 0)
      ensures Now() == if ok then old(Now()).Write(reply) else old(Now())
    {
      ok := writes > 0;
      if ok {
        writes, log := writes - 1, log + [Sent(reply)];
      }
    }

    method HandlePing(nonce: Option<nat>) returns (result: Status)
      modifies this
      ensures Outcome(Now(), result) == AnswerPing(old(Now()), nonce)
    {
      if nonce.None? {
        return Failed(Undecodable);
      }
      var ok := WriteMessage(Pong(nonce.value));
      result := if ok then Done else Failed(NotSent);
    }

    method ListenForPeerMessages() returns (result: Status)
      modifies this
      ensures Outcome(Now(), result) == Listen(old(Now()), timesOut)
    {
      while true
        invariant Listen(Now(), timesOut) == Listen(old(Now()), timesOut)
        decreases |inbox|
      {
        var message := ReadMessage();
        if message.None? {
          return if timesOut then Done else Failed(NotRead);
        }
        if message.value.Ping? {
          result := HandlePing(message.value.nonce);
          if result.Failed? {
            return;
          }
        }
      }
    }

    method Handshake() returns (result: Status)
      modifies this
      ensures Outcome(Now(), result) == Shake(old(Now()), false, false)
    {
      var verackReceived, versionReceived := false, false;
      while !(verackReceived && versionReceived)
        invariant Shake(Now(), versionReceived, verackReceived) == Shake(old(Now()), false, false)
        decreases |inbox|, !(verackReceived && versionReceived)
      {
        var message := ReadMessage();
        if message.None? {
          return Failed(NotRead);
        }
        match message.value {
          case Version(decodes) =>
            if !decodes {
              return Failed(Undecodable);
            }
            versionReceived := true;
            var ok := WriteMessage(Acknowledge);
            if !ok {
              return Failed(NotSent);
            }
          case VerAck =>
            verackReceived := true;
          case Ping(nonce) =>
            result := HandlePing(nonce);
            if result.Failed? {
              return;
            }
          case _ =>
        }
      }
      result := Done;
    }

    method RelayTx(hash: Hash, listens: bool) returns (result: Status)
      modifies this
      ensures Outcome(Now(), result) == Conversation(old(Now()), hash, listens, timesOut)
    {
      var ok := WriteMessage(Hello);
      if !ok {
        return Failed(NotSent);
      }
      result := Handshake();
      if result.Failed? {
        return;
      }
      ok := WriteMessage(Announce(hash));
      if !ok {
        return Failed(NotSent);
      }
      ghost var waiting := Now();
      while true
        invariant Serve(Now(), hash, listens, timesOut) == Serve(waiting, hash, listens, timesOut)
        decreases |inbox|
      {
        var message := ReadMessage();
        if message.None? {
          return Failed(NotRead);
        }
        if message.value.Ping? {
          result := HandlePing(message.value.nonce);
          if result.Failed? {
            return;
          }
          continue;
        }
        if !message.value.GetData? {
          continue;
        }
        if message.value.items.None? {
          return Failed(Undecodable);
        }
        var requested := Requested(message.value.items.value, hash);
        if requested {
          ok := WriteMessage(Transaction(hash));
          if !ok {
            return Failed(NotSent);
          }
          if listens {
            result := ListenForPeerMessages();
            return;
          }
          return Done;
        }
      }
    }
  }

  /** The loop over the list of a getdata message. */
  method Requested(items: seq<InvVect>, hash: Hash) returns (found: bool)
    ensures found == Names(items, hash)
    ensures found <==>
      exists i :: 0 <= i < |items| && (items[i].kind == 1 || items[i].kind == 0x4000_0001) && items[i].hash == hash
  {
    for i := 0 to |items|
      invariant !Names(items[..i], hash)
    {
      if (items[i].kind == TX || items[i].kind == WITNESS_TX) && items[i].hash == hash {
        return true;
      }
    }
    assert items[..|items|] == items;
    found := false;
  }

  // The transaction goes out at most once, and only when it is asked for.

  predicate Transacts(e: Event) {
    e.Sent? && e.reply.Transaction?
  }

  predicate Asks(e: Event, hash: Hash) {
    e.Received? && e.message.GetData? && e.message.items.Some? && Names(e.message.items.value, hash)
  }

  predicate Greeted(log: seq<Event>) {
    Received(Version(true)) in log && Received(VerAck) in log
  }

  predicate Announced(log: seq<Event>, hash: Hash) {
    exists i :: 0 <= i < |log| && log[i] == Sent(Announce(hash)) && Greeted(log[..i])
  }

  predicate NoneSent(log: seq<Event>) {
    forall k :: 0 <= k < |log| ==> !Transacts(log[k])
  }

  /** A transaction in the log is this one, the first, and the answer to a request that followed the announcement. */
  predicate OnRequest(log: seq<Event>, hash: Hash) {
    forall k :: 0 <= k < |log| && Transacts(log[k]) ==>
      && log[k] == Sent(Transaction(hash))
      && k > 0 && Asks(log[k - 1], hash) && Announced(log[..k - 1], hash)
      && NoneSent(log[..k])
  }

  lemma OnRequestAppend(log: seq<Event>, e: Event, hash: Hash)
    requires OnRequest(log, hash)
    requires Transacts(e) ==> e == Sent(Transaction(hash)) && NoneSent(log) &&
                              |log| > 0 && Asks(log[|log| - 1], hash) && Announced(log[..|log| - 1], hash)
    ensures OnRequest(log + [e], hash)
  {
    hide Announced, Asks;
    var more := log + [e];
    forall k | 0 <= k < |more| && Transacts(more[k])
      ensures more[k] == Sent(Transaction(hash)) && k > 0 && Asks(more[k - 1], hash)
      ensures Announced(more[..k - 1], hash) && NoneSent(more[..k])
    {
      assert more[..k] == log[..k];
      if k > 0 {
        assert more[..k - 1] == log[..k - 1];
      }
      if k == |log| {
        assert log[..k] == log;
      }
    }
  }

  lemma AnnouncedAppend(log: seq<Event>, e: Event, hash: Hash)
    requires Announced(log, hash)
    ensures Announced(log + [e], hash)
  {
    var i :| 0 <= i < |log| && log[i] == Sent(Announce(hash)) && Greeted(log[..i]);
    assert (log + [e])[i] == log[i] && (log + [e])[..i] == log[..i];
  }

  lemma {:induction false} ShakeGreets(l: Line, version: bool, verack: bool)
    requires NoneSent(l.log)
    requires version ==> Received(Version(true)) in l.log
    requires verack ==> Received(VerAck) in l.log
    ensures NoneSent(Shake(l, version, verack).line.log)
    ensures Shake(l, version, verack).result.Done? ==> Greeted(Shake(l, version, verack).line.log)
    decreases |l.inbox|
  {
    if !(version && verack) && l.inbox != [] {
      var r := l.Read();
      assert forall e :: e in l.log ==> e in r.log;
      assert Received(l.inbox[0]) in r.log;
      match l.inbox[0] {
        case Version(decodes) =>
          if decodes && r.writes > 0 {
            assert forall e :: e in r.log ==> e in r.Write(Acknowledge).log;
            ShakeGreets(r.Write(Acknowledge), true, verack);
          }
        case VerAck => ShakeGreets(r, version, true);
        case Ping(nonce) =>
          var o := AnswerPing(r, nonce);
          if o.result.Done? {
            assert forall e :: e in r.log ==> e in o.line.log;
            ShakeGreets(o.line, version, verack);
          }
        case _ => ShakeGreets(r, version, verack);
      }
    }
  }

  lemma {:induction false} ListenSendsNone(l: Line, timesOut: bool, hash: Hash)
    requires OnRequest(l.log, hash)
    ensures OnRequest(Listen(l, timesOut).line.log, hash)
    decreases |l.inbox|
  {
    hide OnRequest;
    if l.inbox != [] {
      var r := l.Read();
      OnRequestAppend(l.log, Received(l.inbox[0]), hash);
      if l.inbox[0].Ping? {
        var o := AnswerPing(r, l.inbox[0].nonce);
        if o.result.Done? {
          OnRequestAppend(r.log, Sent(Pong(l.inbox[0].nonce.value)), hash);
          ListenSendsNone(o.line, timesOut, hash);
        }
      } else {
        ListenSendsNone(r, timesOut, hash);
      }
    }
  }

  lemma NoneSentOnRequest(log: seq<Event>, hash: Hash)
    requires NoneSent(log)
    ensures OnRequest(log, hash)
  {
  }

  lemma {:induction false} ServeOnRequest(l: Line, hash: Hash, listens: bool, timesOut: bool)
    requires NoneSent(l.log) && Announced(l.log, hash)
    ensures OnRequest(Serve(l, hash, listens, timesOut).line.log, hash)
    decreases |l.inbox|
  {
    hide OnRequest, Announced, Names;
    NoneSentOnRequest(l.log, hash);
    if l.inbox != [] {
      var r := l.Read();
      AnnouncedAppend(l.log, Received(l.inbox[0]), hash);
      NoneSentOnRequest(r.log, hash);
      match l.inbox[0] {
        case Ping(nonce) =>
          var o := AnswerPing(r, nonce);
          if o.result.Done? {
            AnnouncedAppend(r.log, Sent(Pong(nonce.value)), hash);
            ServeOnRequest(o.line, hash, listens, timesOut);
          }
        case GetData(items) =>
          if items.Some? {
            if !Names(items.value, hash) {
              ServeOnRequest(r, hash, listens, timesOut);
            } else if r.writes > 0 {
              assert r.log[..|r.log| - 1] == l.log;
              OnRequestAppend(r.log, Sent(Transaction(hash)), hash);
              if listens {
                ListenSendsNone(r.Write(Transaction(hash)), timesOut, hash);
              }
            }
          }
        case _ => ServeOnRequest(r, hash, listens, timesOut);
      }
    }
  }

  /** In every conversation the transaction is sent at most once, after handshake, announcement and request. */
  lemma TransactionOnRequest(l: Line, hash: Hash, listens: bool, timesOut: bool)
    requires l.log == []
    ensures OnRequest(Conversation(l, hash, listens, timesOut).line.log, hash)
  {
    if l.writes > 0 {
      ShakeGreets(l.Write(Hello), false, false);
      var s := Shake(l.Write(Hello), false, false);
      if s.result.Done? && s.line.writes > 0 {
        var a := s.line.Write(Announce(hash));
        assert a.log[|s.line.log|] == Sent(Announce(hash)) && a.log[..|s.line.log|] == s.line.log;
        ServeOnRequest(a, hash, listens, timesOut);
      }
    }
  }

  // Every ping is answered before anything else happens.

  predicate IsPing(e: Event) {
    e.Received? && e.message.Ping? && e.message.nonce.Some?
  }

  /** The pongs are the answers to the pings, each right behind its ping. */
  predicate Paired(log: seq<Event>) {
    && (forall k :: 0 <= k < |log| - 1 && IsPing(log[k]) ==> log[k + 1] == Sent(Pong(log[k].message.nonce.value)))
    && (forall k :: 0 <= k < |log| && log[k].Sent? && log[k].reply.Pong? ==>
          k > 0 && log[k - 1] == Received(Ping(Some(log[k].reply.nonce))))
  }

  predicate Settled(log: seq<Event>) {
    Paired(log) && (log == [] || !IsPing(log[|log| - 1]))
  }

  /** How a conversation may stop: behind an unanswered ping only when the write of the answer failed. */
  predicate Answered(o: Outcome) {
    Settled(o.line.log) || (Paired(o.line.log) && o.result == Failed(NotSent) && o.line.writes == 0)
  }

  lemma SettledAppend(log: seq<Event>, e: Event)
    requires Settled(log) && !(e.Sent? && e.reply.Pong?)
    ensures Paired(log + [e])
    ensures !IsPing(e) ==> Settled(log + [e])
  {
  }

  lemma PingAnswered(l: Line, nonce: Option<nat>)
    requires l.inbox != [] && l.inbox[0] == Ping(nonce) && Settled(l.log)
    ensures Answered(AnswerPing(l.Read(), nonce))
    ensures AnswerPing(l.Read(), nonce).result.Done? ==> Settled(AnswerPing(l.Read(), nonce).line.log)
  {
    SettledAppend(l.log, Received(l.inbox[0]));
  }

  lemma {:induction false} ShakeAnswers(l: Line, version: bool, verack: bool)
    requires Settled(l.log)
    ensures Answered(Shake(l, version, verack))
    ensures Shake(l, version, verack).result.Done? ==> Settled(Shake(l, version, verack).line.log)
    decreases |l.inbox|
  {
    hide Paired, Settled;
    if !(version && verack) && l.inbox != [] {
      var r := l.Read();
      SettledAppend(l.log, Received(l.inbox[0]));
      match l.inbox[0] {
        case Version(decodes) =>
          if decodes && r.writes > 0 {
            SettledAppend(r.log, Sent(Acknowledge));
            ShakeAnswers(r.Write(Acknowledge), true, verack);
          }
        case VerAck => ShakeAnswers(r, version, true);
        case Ping(nonce) =>
          PingAnswered(l, nonce);
          if AnswerPing(r, nonce).result.Done? {
            ShakeAnswers(AnswerPing(r, nonce).line, version, verack);
          }
        case _ => ShakeAnswers(r, version, verack);
      }
    }
  }

  lemma {:induction false} ListenAnswers(l: Line, timesOut: bool)
    requires Settled(l.log)
    ensures Answered(Listen(l, timesOut))
    decreases |l.inbox|
  {
    hide Paired, Settled;
    if l.inbox != [] {
      var r := l.Read();
      SettledAppend(l.log, Received(l.inbox[0]));
      if l.inbox[0].Ping? {
        PingAnswered(l, l.inbox[0].nonce);
        if AnswerPing(r, l.inbox[0].nonce).result.Done? {
          ListenAnswers(AnswerPing(r, l.inbox[0].nonce).line, timesOut);
        }
      } else {
        ListenAnswers(r, timesOut);
      }
    }
  }

  lemma {:induction false} ServeAnswers(l: Line, hash: Hash, listens: bool, timesOut: bool)
    requires Settled(l.log)
    ensures Answered(Serve(l, hash, listens, timesOut))
    decreases |l.inbox|
  {
    hide Paired, Settled, Names;
    if l.inbox != [] {
      var r := l.Read();
      SettledAppend(l.log, Received(l.inbox[0]));
      match l.inbox[0] {
        case Ping(nonce) =>
          PingAnswered(l, nonce);
          if AnswerPing(r, nonce).result.Done? {
            ServeAnswers(AnswerPing(r, nonce).line, hash, listens, timesOut);
          }
        case GetData(items) =>
          if items.Some? {
            if !Names(items.value, hash) {
              ServeAnswers(r, hash, listens, timesOut);
            } else if r.writes > 0 {
              SettledAppend(r.log, Sent(Transaction(hash)));
              if listens {
                ListenAnswers(r.Write(Transaction(hash)), timesOut);
              }
            }
          }
        case _ => ServeAnswers(r, hash, listens, timesOut);
      }
    }
  }

  /** In every conversation each ping that decodes is answered by one pong with its nonce before the next read. */
  lemma PingsAnswered(l: Line, hash: Hash, listens: bool, timesOut: bool)
    requires l.log == []
    ensures Answered(Conversation(l, hash, listens, timesOut))
  {
    hide Paired, IsPing;
    EmptySettled();
    if l.writes > 0 {
      SettledAppend(l.log, Sent(Hello));
      NoPing(Sent(Hello));
      ShakeAnswers(l.Write(Hello), false, false);
      var s := Shake(l.Write(Hello), false, false);
      if s.result.Done? && s.line.writes > 0 {
        SettledAppend(s.line.log, Sent(Announce(hash)));
        NoPing(Sent(Announce(hash)));
        ServeAnswers(s.line.Write(Announce(hash)), hash, listens, timesOut);
      }
    }
  }

  lemma EmptySettled()
    ensures Settled([])
  {
  }

  lemma NoPing(e: Event)
    ensures e.Sent? ==> !IsPing(e)
  {
  }

  // Nothing the peer sends is lost, repeated or taken out of order.

  function Heard(log: seq<Event>): seq<Message> {
    if log == [] then []
    else
      var e := log[|log| - 1];
      Heard(log[..|log| - 1]) + if e.Received? then [e.message] else []
  }

  function Stream(l: Line): seq<Message> {
    Heard(l.log) + l.inbox
  }

  lemma ReadKeepsStream(l: Line)
    requires l.inbox != []
    ensures Stream(l.Read()) == Stream(l)
  {
    assert l.Read().log[..|l.log|] == l.log;
    assert [l.inbox[0]] + l.inbox[1..] == l.inbox;
  }

  lemma WriteKeepsStream(l: Line, reply: Reply)
    requires l.writes > 0
    ensures Stream(l.Write(reply)) == Stream(l)
  {
    assert l.Write(reply).log[..|l.log|] == l.log;
  }

  lemma PingKeepsStream(l: Line, nonce: Option<nat>)
    ensures Stream(AnswerPing(l, nonce).line) == Stream(l)
  {
    if nonce.Some? && l.writes > 0 {
      WriteKeepsStream(l, Pong(nonce.value));
    }
  }

  lemma {:induction false} ShakeKeepsStream(l: Line, version: bool, verack: bool)
    ensures Stream(Shake(l, version, verack).line) == Stream(l)
    decreases |l.inbox|
  {
    hide Stream;
    if !(version && verack) && l.inbox != [] {
      var r := l.Read();
      ReadKeepsStream(l);
      match l.inbox[0] {
        case Version(decodes) =>
          if decodes && r.writes > 0 {
            WriteKeepsStream(r, Acknowledge);
            ShakeKeepsStream(r.Write(Acknowledge), true, verack);
          }
        case VerAck => ShakeKeepsStream(r, version, true);
        case Ping(nonce) =>
          PingKeepsStream(r, nonce);
          if AnswerPing(r, nonce).result.Done? {
            ShakeKeepsStream(AnswerPing(r, nonce).line, version, verack);
          }
        case _ => ShakeKeepsStream(r, version, verack);
      }
    }
  }

  lemma {:induction false} ListenKeepsStream(l: Line, timesOut: bool)
    ensures Stream(Listen(l, timesOut).line) == Stream(l)
    decreases |l.inbox|
  {
    hide Stream;
    if l.inbox != [] {
      var r := l.Read();
      ReadKeepsStream(l);
      if l.inbox[0].Ping? {
        PingKeepsStream(r, l.inbox[0].nonce);
        if AnswerPing(r, l.inbox[0].nonce).result.Done? {
          ListenKeepsStream(AnswerPing(r, l.inbox[0].nonce).line, timesOut);
        }
      } else {
        ListenKeepsStream(r, timesOut);
      }
    }
  }

  lemma {:induction false} ServeKeepsStream(l: Line, hash: Hash, listens: bool, timesOut: bool)
    ensures Stream(Serve(l, hash, listens, timesOut).line) == Stream(l)
    decreases |l.inbox|
  {
    hide Stream, Names;
    if l.inbox != [] {
      var r := l.Read();
      ReadKeepsStream(l);
      match l.inbox[0] {
        case Ping(nonce) =>
          PingKeepsStream(r, nonce);
          if AnswerPing(r, nonce).result.Done? {
            ServeKeepsStream(AnswerPing(r, nonce).line, hash, listens, timesOut);
          }
        case GetData(items) =>
          if items.Some? {
            if !Names(items.value, hash) {
              ServeKeepsStream(r, hash, listens, timesOut);
            } else if r.writes > 0 {
              WriteKeepsStream(r, Transaction(hash));
              ListenKeepsStream(r.Write(Transaction(hash)), timesOut);
            }
          }
        case _ => ServeKeepsStream(r, hash, listens, timesOut);
      }
    }
  }

  /** What was heard, followed by what is still unread, is what the peer sent. */
  lemma ConversationKeepsStream(l: Line, hash: Hash, listens: bool, timesOut: bool)
    requires l.log == []
    ensures Stream(Conversation(l, hash, listens, timesOut).line) == l.inbox
  {
    assert Stream(l) == l.inbox;
    hide Stream;
    if l.writes > 0 {
      WriteKeepsStream(l, Hello);
      ShakeKeepsStream(l.Write(Hello), false, false);
      var s := Shake(l.Write(Hello), false, false);
      if s.result.Done? && s.line.writes > 0 {
        WriteKeepsStream(s.line, Announce(hash));
        ServeKeepsStream(s.line.Write(Announce(hash)), hash, listens, timesOut);
      }
    }
  }

  // When the transaction is sent.

  /** Messages that complete the handshake, of which some part may have happened before. */
  predicate Shakes(messages: seq<Message>, version: bool, verack: bool) {
    && (version || Version(true) in messages) && (verack || VerAck in messages)
    && Version(false) !in messages && Ping(None) !in messages
    && (messages != [] ==>
          var early := messages[..|messages| - 1];
          !((version || Version(true) in early) && (verack || VerAck in early)))
  }

  /** Messages during which the wait for a request goes on. */
  predicate Waits(messages: seq<Message>, hash: Hash) {
    && Ping(None) !in messages && GetData(None) !in messages
    && (forall m :: m in messages && m.GetData? ==> m.items.Some? && !Names(m.items.value, hash))
  }

  lemma ShakesFirst(messages: seq<Message>, version: bool, verack: bool)
    requires messages != []
    ensures Shakes(messages, version, verack) <==>
      && !(version && verack) && messages[0] != Version(false) && messages[0] != Ping(None)
      && Shakes(messages[1..], version || messages[0].Version?, verack || messages[0].VerAck?)
  {
    var rest := messages[1..];
    assert messages == [messages[0]] + rest;
    if rest != [] {
      assert messages[..|messages| - 1] == [messages[0]] + rest[..|rest| - 1];
    }
  }

  lemma ShakesBase(messages: seq<Message>, version: bool, verack: bool)
    ensures version && verack ==> (Shakes(messages, version, verack) <==> messages == [])
    ensures messages == [] ==> (Shakes(messages, version, verack) <==> version && verack)
  {
  }

  /** The handshake goes on with the next message, unless that fails. */
  lemma ShakeNext(l: Line, version: bool, verack: bool) returns (n: Line)
    requires !(version && verack)
    requires Shake(l, version, verack).result.Done? ||
             (l.inbox != [] && l.inbox[0] != Version(false) && l.inbox[0] != Ping(None) && l.writes > 0)
    ensures l.inbox != [] && l.inbox[0] != Version(false) && l.inbox[0] != Ping(None)
    ensures n.inbox == l.inbox[1..] && n.writes >= l.writes - 1
    ensures Shake(l, version, verack) == Shake(n, version || l.inbox[0].Version?, verack || l.inbox[0].VerAck?)
  {
    n := l.Read();
    if l.inbox[0].Version? {
      n := n.Write(Acknowledge);
    } else if l.inbox[0].Ping? {
      n := AnswerPing(n, l.inbox[0].nonce).line;
    }
  }

  /** A handshake that succeeds has read messages that complete it. */
  lemma {:induction false} ShakeDone(l: Line, version: bool, verack: bool) returns (i: nat)
    requires Shake(l, version, verack).result.Done?
    ensures i <= |l.inbox| && Shakes(l.inbox[..i], version, verack)
    ensures Shake(l, version, verack).line.inbox == l.inbox[i..]
    decreases |l.inbox|
  {
    ShakesBase([], version, verack);
    if version && verack {
      i := 0;
    } else {
      var n := ShakeNext(l, version, verack);
      hide Shakes, Shake;
      i := ShakeDone(n, version || l.inbox[0].Version?, verack || l.inbox[0].VerAck?);
      assert l.inbox[..i + 1][1..] == n.inbox[..i];
      ShakesFirst(l.inbox[..i + 1], version, verack);
      i := i + 1;
    }
  }

  /** Messages that complete the handshake make it succeed, if the writes do. */
  lemma {:induction false} ShakeWhen(l: Line, version: bool, verack: bool, i: nat)
    requires i <= |l.inbox| && Shakes(l.inbox[..i], version, verack) && l.writes >= |l.inbox|
    ensures var o := Shake(l, version, verack); o.result.Done? && o.line.inbox == l.inbox[i..] &&
                                                o.line.writes - |o.line.inbox| >= l.writes - |l.inbox|
    decreases i
  {
    hide Shakes;
    ShakesBase(l.inbox[..i], version, verack);
    if !(version && verack) {
      ShakesFirst(l.inbox[..i], version, verack);
      var n := ShakeNext(l, version, verack);
      hide Shake;
      assert l.inbox[..i][1..] == n.inbox[..i - 1];
      ShakeWhen(n, version || l.inbox[0].Version?, verack || l.inbox[0].VerAck?, i - 1);
    }
  }

  predicate Sends(o: Outcome, hash: Hash) {
    Sent(Transaction(hash)) in o.line.log
  }

  lemma WaitsFirst(messages: seq<Message>, hash: Hash)
    requires messages != []
    ensures Waits(messages, hash) <==> Waits([messages[0]], hash) && Waits(messages[1..], hash)
  {
    assert messages == [messages[0]] + messages[1..];
  }

  lemma {:induction false} ServeSends(l: Line, hash: Hash, listens: bool, timesOut: bool) returns (j: nat)
    requires Sends(Serve(l, hash, listens, timesOut), hash) && Sent(Transaction(hash)) !in l.log
    ensures j < |l.inbox| && Waits(l.inbox[..j], hash) && Asks(Received(l.inbox[j]), hash)
    decreases |l.inbox|
  {
    hide Names;
    j := 0;
    var r := l.Read();
    if !Asks(Received(l.inbox[0]), hash) {
      match l.inbox[0] {
        case Ping(nonce) => j := ServeSends(AnswerPing(r, nonce).line, hash, listens, timesOut);
        case _ => j := ServeSends(r, hash, listens, timesOut);
      }
      assert l.inbox[..j + 1][1..] == r.inbox[..j];
      WaitsFirst(l.inbox[..j + 1], hash);
      j := j + 1;
    }
  }

  lemma {:induction false} ListenKeeps(l: Line, timesOut: bool, e: Event)
    requires e in l.log
    ensures e in Listen(l, timesOut).line.log
    decreases |l.inbox|
  {
    if l.inbox != [] {
      var r := l.Read();
      if l.inbox[0].Ping? {
        if AnswerPing(r, l.inbox[0].nonce).result.Done? {
          ListenKeeps(AnswerPing(r, l.inbox[0].nonce).line, timesOut, e);
        }
      } else {
        ListenKeeps(r, timesOut, e);
      }
    }
  }

  lemma {:induction false} ServeWhen(l: Line, hash: Hash, listens: bool, timesOut: bool, j: nat)
    requires j < |l.inbox| && Waits(l.inbox[..j], hash) && Asks(Received(l.inbox[j]), hash) && l.writes >= |l.inbox|
    ensures Sends(Serve(l, hash, listens, timesOut), hash)
    decreases j
  {
    hide Names;
    var r := l.Read();
    if j == 0 {
      var w := r.Write(Transaction(hash));
      assert w.log[|r.log|] == Sent(Transaction(hash));
      ListenKeeps(w, timesOut, Sent(Transaction(hash)));
    } else {
      assert l.inbox[..j][1..] == r.inbox[..j - 1];
      WaitsFirst(l.inbox[..j], hash);
      assert l.inbox[0] in [l.inbox[0]];
      match l.inbox[0] {
        case Ping(nonce) => ServeWhen(AnswerPing(r, nonce).line, hash, listens, timesOut, j - 1);
        case _ => ServeWhen(r, hash, listens, timesOut, j - 1);
      }
    }
  }

  /** The peer completes the handshake, and asks for the transaction before it sends anything that does not decode. */
  predicate Served(inbox: seq<Message>, hash: Hash, i: nat, j: nat) {
    && i <= j < |inbox|
    && Shakes(inbox[..i], false, false) && Waits(inbox[i..j], hash) && Asks(Received(inbox[j]), hash)
  }

  lemma SentOnlyWhenServed(l: Line, hash: Hash, listens: bool, timesOut: bool) returns (i: nat, j: nat)
    requires l.log == [] && Sends(Conversation(l, hash, listens, timesOut), hash)
    ensures Served(l.inbox, hash, i, j)
  {
    hide Shakes, Waits, Names, Shake, Serve;
    var h := l.Write(Hello);
    ShakeGreets(h, false, false);
    i := ShakeDone(h, false, false);
    var a := Shake(h, false, false).line.Write(Announce(hash));
    var n := ServeSends(a, hash, listens, timesOut);
    j := i + n;
    assert a.inbox[..n] == l.inbox[i..j];
  }

  lemma SentWhenServed(l: Line, hash: Hash, listens: bool, timesOut: bool, i: nat, j: nat)
    requires l.log == [] && l.writes >= |l.inbox| + 2 && Served(l.inbox, hash, i, j)
    ensures Sends(Conversation(l, hash, listens, timesOut), hash)
  {
    hide Shakes, Waits, Names, Shake, Serve;
    var h := l.Write(Hello);
    ShakeWhen(h, false, false, i);
    var a := Shake(h, false, false).line.Write(Announce(hash));
    assert a.inbox[..j - i] == l.inbox[i..j];
    ServeWhen(a, hash, listens, timesOut, j - i);
  }

  /** While writes succeed, the transaction is sent to exactly the peers that ask for it properly. */
  lemma SentExactlyWhenServed(l: Line, hash: Hash, listens: bool, timesOut: bool)
    requires l.log == [] && l.writes >= |l.inbox| + 2
    ensures Sends(Conversation(l, hash, listens, timesOut), hash) <==>
            exists i: nat, j: nat :: Served(l.inbox, hash, i, j)
  {
    hide Served, Sends, Conversation;
    if Sends(Conversation(l, hash, listens, timesOut), hash) {
      var i, j := SentOnlyWhenServed(l, hash, listens, timesOut);
    }
    if i: nat, j: nat :| Served(l.inbox, hash, i, j) {
      SentWhenServed(l, hash, listens, timesOut, i, j);
    }
  }
}
