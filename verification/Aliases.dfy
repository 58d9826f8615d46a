/** Topic aliases (section 3.3.2.3.4 of MQTT 5.0): short numbers that stand for topics. */
module Aliases {

  class OutboundTopicAliases {
    var internal: map<string, nat>
    var cursor: nat
    const maximum: nat

    constructor (maximum: nat)
      ensures this.maximum == maximum && Valid() && internal == map[]
    {
      this.maximum := maximum;
      internal, cursor := map[], 0;
    }

    /** Aliases are distinct and lie between 1 and the maximum. */
    ghost predicate Valid()
      reads this
    {
      && cursor <= maximum
      && (forall t <- internal :: 1 <= internal[t] <= cursor)
      && (forall t <- internal, u <- internal :: internal[t] == internal[u] ==> t == u)
    }

    /** An alias once given stays; 0 means that there is none. */
    method Set(topic: string) returns (alias: nat, existed: bool)
      requires Valid()
      modifies this
      ensures Valid() && internal == if alias > 0 && !existed then old(internal)[topic := alias] else old(internal)
      ensures existed <==> maximum > 0 && topic in old(internal)
      ensures alias > 0 ==> topic in internal && internal[topic] == alias <= maximum
      ensures alias == 0 <==> maximum == 0 || (topic !in old(internal) && old(cursor) == maximum)
      ensures if alias > 0 && !existed then alias == cursor == old(cursor) + 1 else cursor == old(cursor)
    {
      if maximum == 0 {
        return 0, false;
      }
      if topic in internal {
        return internal[topic], true;
      }
      if cursor + 1 > maximum {
        return 0, false;
      }
      internal := internal[topic := cursor + 1];
      cursor := cursor + 1;
      return cursor, false;
    }
  }

  class InboundTopicAliases {
    var internal: map<nat, string>
    const maximum: nat

    constructor (maximum: nat)
      ensures this.maximum == maximum && internal == map[]
    {
      this.maximum := maximum;
      internal := map[];
    }

    method Set(id: nat, topic: string) returns (resolved: string)
      modifies this
      ensures resolved == if maximum > 0 && topic == "" && id in old(internal) then old(internal)[id] else topic
      ensures internal == if maximum == 0 || (topic == "" && id in old(internal)) then old(internal) else old(internal)[id := topic]
    {
      if maximum == 0 {
        return topic;
      }
      if id in internal && topic == "" {
        return internal[id];
      }
      internal := internal[id := topic];
      return topic;
    }
  }

  /** The receiver knows every alias that the sender has given. */
  ghost predicate Synced(sender: OutboundTopicAliases, receiver: InboundTopicAliases)
    reads sender, receiver
  {
    forall t <- sender.internal :: sender.internal[t] in receiver.internal && receiver.internal[sender.internal[t]] == t
  }

  datatype Sent = Sent(topic: string, alias: nat)

  /** The topic fields of an outgoing publish: an alias the client knows replaces the topic. */
  method Outgoing(sender: OutboundTopicAliases, topic: string) returns (m: Sent)
    requires sender.Valid()
    modifies sender
    ensures sender.Valid()
    ensures m.alias > 0 ==> topic in sender.internal && sender.internal[topic] == m.alias <= sender.maximum
    ensures m.topic == (if m.alias > 0 && topic in old(sender.internal) then "" else topic)
    ensures sender.internal ==
              if m.alias > 0 && topic !in old(sender.internal) then old(sender.internal)[topic := m.alias] else old(sender.internal)
    ensures if m.alias > 0 && topic !in old(sender.internal) then m.alias == sender.cursor == old(sender.cursor) + 1
            else sender.cursor == old(sender.cursor)
    ensures m.alias > 0 && topic in old(sender.internal) ==> old(sender.internal)[topic] == m.alias
  {
    m := Sent(topic, 0);
    if sender.maximum > 0 {
      var alias, existed := sender.Set(topic);
      m := Sent(if alias > 0 && existed then "" else topic, alias);
    }
  }

  method Incoming(receiver: InboundTopicAliases, m: Sent) returns (topic: string)
    modifies receiver
    ensures m.alias == 0 ==> topic == m.topic && receiver.internal == old(receiver.internal)
    ensures m.alias > 0 && receiver.maximum > 0 && m.topic == "" && m.alias in old(receiver.internal) ==>
              topic == old(receiver.internal)[m.alias] && receiver.internal == old(receiver.internal)
    ensures m.alias > 0 && receiver.maximum > 0 && !(m.topic == "" && m.alias in old(receiver.internal)) ==>
              topic == m.topic && receiver.internal == old(receiver.internal)[m.alias := m.topic]
  {
    topic := m.topic;
    if m.alias > 0 {
      topic := receiver.Set(m.alias, m.topic);
    }
  }

  /** The receiver knows exactly the aliases of `known` topics, and has the empty topic for
      others it has met. */
  ghost predicate Follows(sender: OutboundTopicAliases, receiver: InboundTopicAliases, known: set<string>)
    reads sender, receiver
  {
    && known <= sender.internal.Keys
    && (forall alias <- receiver.internal :: alias <= sender.cursor)
    && forall t <- sender.internal ::
         if t in known then sender.internal[t] in receiver.internal && receiver.internal[sender.internal[t]] == t
         else sender.internal[t] in receiver.internal ==> receiver.internal[sender.internal[t]] == ""
  }

  predicate Introduces(m: Sent) { m.topic != "" && m.alias > 0 }

  /** One message, delivered or not: its topic is recovered exactly when it carries it or its
      alias is known. */
  method RelayOne(sender: OutboundTopicAliases, receiver: InboundTopicAliases, topic: string, delivered: bool, ghost known: set<string>)
      returns (m: Sent, received: string, ghost known': set<string>)
    requires sender.Valid() && Follows(sender, receiver, known) && topic != ""
    requires sender.maximum > 0 ==> receiver.maximum > 0
    modifies sender, receiver
    ensures sender.Valid() && Follows(sender, receiver, known')
    ensures known' == if delivered && Introduces(m) then known + {topic} else known
    ensures m.alias <= sender.maximum && (m.topic == topic || (m.topic == "" && m.alias > 0))
    ensures delivered ==> (received == topic <==> m.topic != "" || topic in known)
  {
    m := Outgoing(sender, topic);
    received, known' := "", known;
    if delivered {
      received := Incoming(receiver, m);
      if Introduces(m) {
        known' := known + {topic};
      }
    }
  }

  /** One of the first `n` messages that gives `topic` its alias was delivered. */
  ghost predicate Introduced(sent: seq<Sent>, delivered: seq<bool>, n: nat, topic: string)
    requires n <= |sent| && n <= |delivered|
  {
    exists i :: 0 <= i < n && delivered[i] && Introduces(sent[i]) && sent[i].topic == topic
  }

  /** The topic of message `j`, if delivered, is recovered exactly when the message carries it
      or one that introduced its alias was delivered before it. */
  ghost predicate Recovered(topics: seq<string>, delivered: seq<bool>, sent: seq<Sent>, received: seq<string>, j: nat)
    requires j < |topics| && j < |sent| && j < |delivered| && j < |received|
  {
    delivered[j] ==> (received[j] == topics[j] <==> sent[j].topic != "" || Introduced(sent, delivered, j, topics[j]))
  }

  lemma IntroducedNext(sent: seq<Sent>, delivered: seq<bool>, m: Sent, topic: string)
    requires |sent| < |delivered|
    ensures Introduced(sent + [m], delivered, |sent| + 1, topic) <==>
              Introduced(sent, delivered, |sent|, topic) || (delivered[|sent|] && Introduces(m) && m.topic == topic)
    ensures forall j :: 0 <= j <= |sent| ==> (Introduced(sent + [m], delivered, j, topic) <==> Introduced(sent, delivered, j, topic))
  {
    var more := sent + [m];
    assert more[|sent|] == m && forall i :: 0 <= i < |sent| ==> more[i] == sent[i];
  }

  lemma RecoveredStays(topics: seq<string>, delivered: seq<bool>, sent: seq<Sent>, received: seq<string>, m: Sent, topic: string)
    requires |sent| == |received| < |topics| == |delivered|
    requires forall j :: 0 <= j < |sent| ==> Recovered(topics, delivered, sent, received, j)
    requires delivered[|sent|] ==>
               (topic == topics[|sent|] <==> m.topic != "" || Introduced(sent, delivered, |sent|, topics[|sent|]))
    ensures forall j :: 0 <= j <= |sent| ==> Recovered(topics, delivered, sent + [m], received + [topic], j)
  {
    forall j | 0 <= j <= |sent| ensures Recovered(topics, delivered, sent + [m], received + [topic], j) {
      IntroducedNext(sent, delivered, m, topics[j]);
      assert j < |sent| ==> Recovered(topics, delivered, sent, received, j);
    }
  }

  /** Aliases are given when a message is made, whether or not it is then delivered. */
  method RelaySome(topics: seq<string>, delivered: seq<bool>, senderMaximum: nat, receiverMaximum: nat)
      returns (sent: seq<Sent>, received: seq<string>)
    requires senderMaximum > 0 ==> receiverMaximum > 0
    requires |delivered| == |topics| && forall i :: 0 <= i < |topics| ==> topics[i] != ""
    ensures |sent| == |topics| == |received| && forall m <- sent :: m.alias <= senderMaximum
    ensures forall j :: 0 <= j < |topics| ==> Recovered(topics, delivered, sent, received, j)
    ensures forall j :: 0 <= j < |topics| ==> sent[j].topic == topics[j] || (sent[j].topic == "" && sent[j].alias > 0)
  {
    var sender := new OutboundTopicAliases(senderMaximum);
    var receiver := new InboundTopicAliases(receiverMaximum);
    sent, received := [], [];
    ghost var known: set<string> := {};
    for n := 0 to |topics|
      invariant sender.Valid() && Follows(sender, receiver, known)
      invariant |sent| == n == |received| && forall m <- sent :: m.alias <= senderMaximum
      invariant forall t :: t in known <==> Introduced(sent, delivered, n, t)
      invariant forall j :: 0 <= j < n ==> Recovered(topics, delivered, sent, received, j)
      invariant forall j :: 0 <= j < n ==> sent[j].topic == topics[j] || (sent[j].topic == "" && sent[j].alias > 0)
    {
      var m, topic;
      ghost var next;
      m, topic, next := RelayOne(sender, receiver, topics[n], delivered[n], known);
      RecoveredStays(topics, delivered, sent, received, m, topic);
      forall t ensures t in next <==> Introduced(sent + [m], delivered, n + 1, t) {
        IntroducedNext(sent, delivered, m, t);
      }
      sent, received, known := sent + [m], received + [topic], next;
    }
  }

  /** Every topic delivered in order is recovered by the receiver, and aliases stay in range. */
  method Relay(topics: seq<string>, senderMaximum: nat, receiverMaximum: nat) returns (sent: seq<Sent>, received: seq<string>)
    requires senderMaximum > 0 ==> receiverMaximum > 0
    requires forall i :: 0 <= i < |topics| ==> topics[i] != ""
    ensures received == topics
    ensures |sent| == |topics| && forall m <- sent :: m.alias <= senderMaximum
  {
    var sender := new OutboundTopicAliases(senderMaximum);
    var receiver := new InboundTopicAliases(receiverMaximum);
    sent, received := [], [];
    for i := 0 to |topics|
      invariant sender.Valid() && Synced(sender, receiver)
      invariant received == topics[..i] && |sent| == i && forall m <- sent :: m.alias <= senderMaximum
    {
      var m := Outgoing(sender, topics[i]);
      var topic := Incoming(receiver, m);
      sent, received := sent + [m], received + [topic];
    }
  }
}
