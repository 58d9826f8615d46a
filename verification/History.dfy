/** Whole histories of the topic index: the table holds, for every client and filter, the last
    word said about them, so a publish finds what a flat scan of that history would. */
module History {
  import opened Levels
  import opened TrieContents
  import opened TopicTable
  import opened TopicIndex
  import opened Topics
  import opened Matching
  import opened Delivery
  import opened Subscribers
  import opened SubscriberScan
  import opened MessageScan

  datatype Op =
    | Subscribe(client: string, sub: Subscription)
    | Unsubscribe(client: string, filter: string)
    | InlineSubscribe(id: int, sub: Subscription)
    | InlineUnsubscribe(id: int, filter: string)
    | Retain(msg: Message)
    | Expire(now: int, maxExpiry: int)

  datatype State = State(table: Trie, retained: map<string, Message>)

  predicate IsProper(op: Op) {
    && (op.Subscribe? ==> op.sub.identifiers == None)
    && (op.Retain? ==> op.msg.topic != "")
  }

  function Change(st: State, p: Path, n: Node): State { st.(table := With(st.table, p, n)) }

  /** What each operation does to the flat table and the retained messages. */
  function Step(st: State, op: Op): State {
    match op
    case Subscribe(client, sub) =>
      var place := PlaceOf(sub.filter);
      Change(st, place.path, Joined(At(st.table, place.path), client, place, sub))
    case Unsubscribe(client, filter) =>
      var place := PlaceOf(filter);
      Change(st, place.path, Departed(At(st.table, place.path), client, place))
    case InlineSubscribe(id, sub) =>
      var p := Split(sub.filter);
      Change(st, p, AddInline(At(st.table, p), id, sub))
    case InlineUnsubscribe(id, filter) =>
      var p := Split(filter);
      Change(st, p, DropInline(At(st.table, p), id))
    case Retain(msg) =>
      var p, keep := Split(msg.topic), msg.payload != "";
      Change(st, p, At(st.table, p).(retainPath := if keep then msg.topic else ""))
        .(retained := if keep then st.retained[msg.topic := msg] else st.retained - {msg.topic})
    case Expire(now, maxExpiry) =>
      st.(retained := Unexpired(st.retained, {}, now, maxExpiry))
  }

  function After(ops: seq<Op>): State {
    if ops == [] then State(map[], map[]) else Step(After(ops[..|ops| - 1]), ops[|ops| - 1])
  }

  // ---------------------------------------------------------------- the index performs a history

  method Perform(x: TopicsIndex, op: Op)
    requires x.Valid() && IsProper(op)
    modifies x, x.sh.repr
    ensures x.Valid() && (forall o <- x.sh.repr :: o in old(x.sh).repr || fresh(o))
    ensures State(x.Table(), x.retained) == Step(old(State(x.Table(), x.retained)), op)
  {
    match op
    case Subscribe(client, sub) => var _ := x.Subscribe(client, sub);
    case Unsubscribe(client, filter) => var _ := x.Unsubscribe(filter, client);
    case InlineSubscribe(id, sub) => var _ := x.InlineSubscribe(id, sub);
    case InlineUnsubscribe(id, filter) => var _ := x.InlineUnsubscribe(id, filter);
    case Retain(msg) => var _ := x.RetainMessage(msg);
    case Expire(now, maxExpiry) => x.ClearExpiredRetained(now, maxExpiry);
  }

  method Replay(ops: seq<Op>) returns (x: TopicsIndex)
    requires forall op <- ops :: IsProper(op)
    ensures fresh(x) && fresh(x.sh.repr) && x.Valid()
    ensures State(x.Table(), x.retained) == After(ops)
  {
    x := new TopicsIndex();
    for i := 0 to |ops|
      invariant fresh(x) && x.Valid() && (forall o <- x.sh.repr :: fresh(o))
      invariant State(x.Table(), x.retained) == After(ops[..i])
    {
      assert ops[..i + 1][..i] == ops[..i];
      Perform(x, ops[i]);
    }
    assert ops[..|ops|] == ops;
  }

  // ---------------------------------------------------------------- the last word

  /** What one operation says about a client at a place, else what was said before. */
  function Heard(op: Op, client: string, place: Place, before: Option<Subscription>): Option<Subscription> {
    match op
    case Subscribe(c, sub) => if c == client && PlaceOf(sub.filter) == place then Some(sub) else before
    case Unsubscribe(c, filter) => if c == client && PlaceOf(filter) == place then None else before
    case _ => before
  }

  function LastWord(ops: seq<Op>, client: string, place: Place): Option<Subscription> {
    if ops == [] then None else Heard(ops[|ops| - 1], client, place, LastWord(ops[..|ops| - 1], client, place))
  }

  /** What an entry holds for a client. */
  function Held(n: Node, client: string, place: Place): Option<Subscription> {
    match place
    case Plain(_) => if client in n.subs then Some(n.subs[client]) else None
    case Shared(g, _) => if client in Group(n, g) then Some(Group(n, g)[client]) else None
  }

  /** Changing the entry at `p` to `n` changes what is held there and nowhere else. */
  lemma HeldAfter(f: Trie, p: Path, n: Node, client: string, place: Place)
    ensures Held(At(With(f, p, n), place.path), client, place) ==
              if p == place.path then Held(n, client, place) else Held(At(f, place.path), client, place)
  {
  }

  lemma HeldAfterJoin(f: Trie, client: string, place: Place, c: string, at: Place, sub: Subscription)
    ensures Held(At(With(f, at.path, Joined(At(f, at.path), c, at, sub)), place.path), client, place) ==
              if c == client && at == place then Some(sub) else Held(At(f, place.path), client, place)
  {
  }

  lemma HeldAfterLeave(f: Trie, client: string, place: Place, c: string, at: Place)
    ensures Held(At(With(f, at.path, Departed(At(f, at.path), c, at)), place.path), client, place) ==
              if c == client && at == place then None else Held(At(f, place.path), client, place)
  {
  }

  lemma HeldAfterStep(st: State, op: Op, client: string, place: Place)
    ensures Held(At(Step(st, op).table, place.path), client, place) ==
              Heard(op, client, place, Held(At(st.table, place.path), client, place))
  {
    match op
    case Subscribe(c, sub) => HeldAfterJoin(st.table, client, place, c, PlaceOf(sub.filter), sub);
    case Unsubscribe(c, filter) => HeldAfterLeave(st.table, client, place, c, PlaceOf(filter));
    case InlineSubscribe(id, sub) =>
      HeldAfter(st.table, Split(sub.filter), AddInline(At(st.table, Split(sub.filter)), id, sub), client, place);
    case InlineUnsubscribe(id, filter) =>
      HeldAfter(st.table, Split(filter), DropInline(At(st.table, Split(filter)), id), client, place);
    case Retain(msg) =>
      HeldAfter(st.table, Split(msg.topic), At(Step(st, op).table, Split(msg.topic)), client, place);
    case Expire(_, _) =>
  }

  lemma {:induction false} TableIsLastWord(ops: seq<Op>, client: string, place: Place)
    ensures Held(At(After(ops).table, place.path), client, place) == LastWord(ops, client, place)
  {
    if ops != [] {
      TableIsLastWord(ops[..|ops| - 1], client, place);
      HeldAfterStep(After(ops[..|ops| - 1]), ops[|ops| - 1], client, place);
    }
  }

  // The same for inline subscriptions and for retained messages.

  function InlineWord(ops: seq<Op>, id: int, path: Path): Option<Subscription> {
    if ops == [] then None
    else
      var before := InlineWord(ops[..|ops| - 1], id, path);
      match ops[|ops| - 1]
      case InlineSubscribe(i, sub) => if i == id && Split(sub.filter) == path then Some(sub) else before
      case InlineUnsubscribe(i, filter) => if i == id && Split(filter) == path then None else before
      case _ => before
  }

  function InlineHeld(n: Node, id: int): Option<Subscription> {
    if id in n.inline then Some(n.inline[id]) else None
  }

  lemma JoinedKeepsInline(n: Node, client: string, place: Place, sub: Subscription)
    ensures Joined(n, client, place, sub).inline == n.inline && Departed(n, client, place).inline == n.inline
  {
  }

  lemma InlineAfter(f: Trie, p: Path, n: Node, path: Path)
    ensures At(With(f, p, n), path).inline == if p == path then n.inline else At(f, path).inline
  {
  }

  lemma InlineAfterStep(st: State, op: Op, id: int, path: Path)
    ensures InlineHeld(At(Step(st, op).table, path), id) ==
              match op
              case InlineSubscribe(i, sub) =>
                if i == id && Split(sub.filter) == path then Some(sub) else InlineHeld(At(st.table, path), id)
              case InlineUnsubscribe(i, filter) =>
                if i == id && Split(filter) == path then None else InlineHeld(At(st.table, path), id)
              case _ => InlineHeld(At(st.table, path), id)
  {
    match op
    case Subscribe(c, sub) =>
      var place := PlaceOf(sub.filter);
      JoinedKeepsInline(At(st.table, place.path), c, place, sub);
      InlineAfter(st.table, place.path, Joined(At(st.table, place.path), c, place, sub), path);
    case Unsubscribe(c, filter) =>
      var place := PlaceOf(filter);
      var n := At(st.table, place.path);
      JoinedKeepsInline(n, c, place, Subscription("", 0, None, 0, false));
      InlineAfter(st.table, place.path, Departed(n, c, place), path);
    case InlineSubscribe(i, sub) =>
      InlineAfter(st.table, Split(sub.filter), AddInline(At(st.table, Split(sub.filter)), i, sub), path);
    case InlineUnsubscribe(i, filter) =>
      InlineAfter(st.table, Split(filter), DropInline(At(st.table, Split(filter)), i), path);
    case Retain(msg) => InlineAfter(st.table, Split(msg.topic), At(Step(st, op).table, Split(msg.topic)), path);
    case Expire(_, _) =>
  }

  /** After any history an inline entry is what was last said about its identifier and filter. */
  lemma {:induction false} InlineIsLastWord(ops: seq<Op>, id: int, path: Path)
    ensures InlineHeld(At(After(ops).table, path), id) == InlineWord(ops, id, path)
  {
    if ops != [] {
      InlineIsLastWord(ops[..|ops| - 1], id, path);
      InlineAfterStep(After(ops[..|ops| - 1]), ops[|ops| - 1], id, path);
    }
  }

  /** What is retained under a topic: the last message, unless it was empty or has expired. */
  function RetainedWord(ops: seq<Op>, topic: string): Option<Message> {
    if ops == [] then None
    else
      var before := RetainedWord(ops[..|ops| - 1], topic);
      match ops[|ops| - 1]
      case Retain(msg) => if msg.topic != topic then before else if msg.payload == "" then None else Some(msg)
      case Expire(now, max) =>
        if before.Some? && ((before.value.version == 5 && 0 < before.value.expiry < now)
                            || (max > 0 && before.value.created + max < now))
        then None else before
      case _ => before
  }

  lemma {:induction false} RetainedIsLastWord(ops: seq<Op>, topic: string)
    ensures var kept := After(ops).retained; (if topic in kept then Some(kept[topic]) else None) == RetainedWord(ops, topic)
  {
    if ops != [] {
      RetainedIsLastWord(ops[..|ops| - 1], topic);
    }
  }

  // ---------------------------------------------------------------- the flat scan

  lemma StepCoherent(st: State, op: Op)
    requires Coherent(st.table, st.retained) && IsProper(op)
    ensures Coherent(Step(st, op).table, Step(st, op).retained)
  {
    match op
    case Subscribe(client, sub) => JoinedCoherent(st.table, st.retained, client, sub);
    case Unsubscribe(client, filter) => DepartedCoherent(st.table, st.retained, client, PlaceOf(filter));
    case InlineSubscribe(id, sub) =>
      InlineCoherent(st.table, st.retained, Split(sub.filter), At(st.table, Split(sub.filter)).inline[id := sub]);
    case InlineUnsubscribe(id, filter) =>
      InlineCoherent(st.table, st.retained, Split(filter), At(st.table, Split(filter)).inline - {id});
    case Retain(msg) =>
      if msg.payload != "" { RetainedCoherent(st.table, st.retained, msg); } else { ReleasedCoherent(st.table, st.retained, msg.topic); }
    case Expire(now, maxExpiry) => FewerCoherent(st.table, st.retained, Unexpired(st.retained, {}, now, maxExpiry));
  }

  lemma {:induction false} AfterCoherent(ops: seq<Op>)
    requires forall op <- ops :: IsProper(op)
    ensures Coherent(After(ops).table, After(ops).retained)
  {
    if ops != [] {
      AfterCoherent(ops[..|ops| - 1]);
      StepCoherent(After(ops[..|ops| - 1]), ops[|ops| - 1]);
    }
  }

  /** A flat scan's question: does the history leave `client` with `sub`, and does it match? */
  ghost predicate Wants(ops: seq<Op>, topic: string, client: string, sub: Subscription) {
    && PlaceOf(sub.filter).Plain? && LastWord(ops, client, PlaceOf(sub.filter)) == Some(sub)
    && Reaches(Split(sub.filter), Split(topic))
    && (topic != "" && topic[0] == '$' && sub.filter != "" ==> sub.filter[0] != '+' && sub.filter[0] != '#')
  }

  lemma PlainPath(filter: string)
    ensures PlaceOf(filter).Plain? ==> PlaceOf(filter) == Plain(Split(filter))
  {
  }

  /** The merged subscriptions of a client are exactly those a flat scan of the history finds. */
  lemma MatchesAreFlatScan(ops: seq<Op>, topic: string, client: string, sub: Subscription)
    requires forall op <- ops :: IsProper(op)
    ensures sub in MatchedBy(After(ops).table, Reached(After(ops).table, topic), topic, client) <==> Wants(ops, topic, client, sub)
  {
    var f := After(ops).table;
    AfterCoherent(ops);
    PlainPath(sub.filter);
    TableIsLastWord(ops, client, Plain(Split(sub.filter)));
    if sub in MatchedBy(f, Reached(f, topic), topic, client) {
      var p :| p in Reached(f, topic) && Visible(f, p, topic, client) && sub == f[p].subs[client];
      assert Filed(PlaceOf, p, f[p]) && PlainAt(PlaceOf, p, sub);
    }
    if Wants(ops, topic, client, sub) {
      assert Visible(f, Split(sub.filter), topic, client);
    }
  }

  /** `r` merges exactly the subscriptions of `client` that a flat scan finds. */
  ghost predicate Serves(r: Subscription, ops: seq<Op>, topic: string, client: string) {
    exists from: set<Subscription> :: Merged(r, from) && forall sub :: sub in from <==> Wants(ops, topic, client, sub)
  }

  method SubscribersAfter(ops: seq<Op>, topic: string) returns (s: Subscribers)
    requires topic != "" && forall op <- ops :: IsProper(op)
    ensures forall c :: c in s.subscriptions <==> exists sub :: Wants(ops, topic, c, sub)
    ensures forall c <- s.subscriptions :: Serves(s.subscriptions[c], ops, topic, c)
  {
    var x := Replay(ops);
    s := FindSubscribers(x, topic);
    FlatScan(ops, topic, s.subscriptions);
  }

  /** For every history and every topic that starts with `$`: a plain filter that starts with a
      wildcard is served to nobody, and every other that reaches the topic is. */
  lemma DollarTopicsAfter(ops: seq<Op>, topic: string, client: string, sub: Subscription)
    requires topic != "" && topic[0] == '$' && sub.filter != "" && PlaceOf(sub.filter).Plain?
    requires (forall op <- ops :: IsProper(op)) && LastWord(ops, client, PlaceOf(sub.filter)) == Some(sub)
    ensures var matched := MatchedBy(After(ops).table, Reached(After(ops).table, topic), topic, client);
            sub in matched <==> Reaches(Split(sub.filter), Split(topic)) && sub.filter[0] != '+' && sub.filter[0] != '#'
  {
    MatchesAreFlatScan(ops, topic, client, sub);
  }

  /** Subscribers collected from the table are those of the history, and served as it says. */
  lemma FlatScan(ops: seq<Op>, topic: string, acc: map<string, Subscription>)
    requires forall op <- ops :: IsProper(op)
    requires Collects(acc, After(ops).table, Reached(After(ops).table, topic), topic)
    ensures forall c :: c in acc <==> exists sub :: Wants(ops, topic, c, sub)
    ensures forall c <- acc :: Serves(acc[c], ops, topic, c)
  {
    forall c ensures c in acc <==> exists sub :: Wants(ops, topic, c, sub)
             ensures c in acc ==> Serves(acc[c], ops, topic, c) {
      FlatScanOf(ops, topic, acc, c);
    }
  }

  lemma FlatScanOf(ops: seq<Op>, topic: string, acc: map<string, Subscription>, c: string)
    requires forall op <- ops :: IsProper(op)
    requires Collects(acc, After(ops).table, Reached(After(ops).table, topic), topic)
    ensures c in acc <==> exists sub :: Wants(ops, topic, c, sub)
    ensures c in acc ==> Serves(acc[c], ops, topic, c)
  {
    var f := After(ops).table;
    var from := MatchedBy(f, Reached(f, topic), topic, c);
    forall sub ensures sub in from <==> Wants(ops, topic, c, sub) { MatchesAreFlatScan(ops, topic, c, sub); }
    assert if c in acc then Merged(acc[c], from) else from == {};
    if c in acc {
      var sub :| sub in from && acc[c].filter == sub.filter;
    }
  }

  method MessagesAfter(ops: seq<Op>, filter: string) returns (out: seq<Message>)
    requires forall op <- ops :: IsProper(op)
    ensures Answers(out, After(ops).retained, filter)
  {
    var x := Replay(ops);
    out := Messages(x, filter);
  }
}
