/** The topic index as a flat table of entries, one per path, and what keeps it coherent. */
module TopicTable {
  import opened Levels
  import opened TrieContents

  datatype Message = Message(topic: string, payload: string, retain: bool, version: nat, created: int, expiry: int)

  function AddSub(n: Node, client: string, sub: Subscription): Node { n.(subs := n.subs[client := sub]) }
  function DropSub(n: Node, client: string): Node { n.(subs := n.subs - {client}) }

  function Group(n: Node, group: string): map<string, Subscription> {
    if group in n.shared then n.shared[group] else map[]
  }
  function AddShared(n: Node, group: string, client: string, sub: Subscription): Node {
    n.(shared := n.shared[group := Group(n, group)[client := sub]])
  }
  function DropShared(n: Node, group: string, client: string): Node {
    var members := Group(n, group) - {client};
    n.(shared := if members == map[] then n.shared - {group} else n.shared[group := members])
  }

  function AddInline(n: Node, id: int, sub: Subscription): Node { n.(inline := n.inline[id := sub]) }
  function DropInline(n: Node, id: int): Node { n.(inline := n.inline - {id}) }

  /** Subscriptions are filed under the place of their filter (`at`), share groups have
      members, and a retained message's path is recorded where it leads. */
  ghost predicate Filed(at: string -> Place, p: Path, n: Node) {
    && (forall c <- n.subs :: PlainAt(at, p, n.subs[c]))
    && (forall g <- n.shared :: n.shared[g] != map[] && forall c <- n.shared[g] :: SharedAt(at, p, g, n.shared[g][c]))
    && (n.retainPath != "" ==> Split(n.retainPath) == p)
  }

  ghost predicate PlainAt(at: string -> Place, p: Path, sub: Subscription) {
    at(sub.filter) == Plain(p) && sub.identifiers == None
  }

  ghost predicate SharedAt(at: string -> Place, p: Path, group: string, sub: Subscription) {
    at(sub.filter) == Shared(group, p) && sub.identifiers == None
  }

  ghost predicate CoherentFor(at: string -> Place, f: Trie, retained: map<string, Message>) {
    && (forall p <- f :: p != [] && Filed(at, p, f[p]))
    && (forall t <- retained :: t != "" && retained[t].topic == t && At(f, Split(t)).retainPath == t)
  }

  /** Filing an entry correctly keeps the table coherent. */
  lemma CoherentForWith(at: string -> Place, f: Trie, retained: map<string, Message>, retained': map<string, Message>, p: Path, n: Node)
    requires CoherentFor(at, f, retained) && p != [] && Filed(at, p, n)
    requires forall t <- retained' :: t != "" && retained'[t].topic == t
    requires forall t <- retained' :: if Split(t) == p then n.retainPath == t else t in retained
    ensures CoherentFor(at, With(f, p, n), retained')
  {
  }

  ghost predicate Coherent(f: Trie, retained: map<string, Message>) { CoherentFor(PlaceOf, f, retained) }

  // ---------------------------------------------------------------- one entry

  predicate Holds(n: Node, client: string, place: Place) {
    match place
    case Plain(_) => client in n.subs
    case Shared(group, _) => client in Group(n, group)
  }

  /** The entry at a filter's path after `client` subscribes. */
  function Joined(n: Node, client: string, place: Place, sub: Subscription): Node {
    match place
    case Plain(_) => AddSub(n, client, sub)
    case Shared(group, _) => AddShared(n, group, client, sub)
  }

  function Departed(n: Node, client: string, place: Place): Node {
    match place
    case Plain(_) => DropSub(n, client)
    case Shared(group, _) => DropShared(n, group, client)
  }

  lemma JoinedIsFiled(at: string -> Place, p: Path, n: Node, client: string, sub: Subscription)
    requires Filed(at, p, n) && at(sub.filter).path == p && sub.identifiers == None
    ensures Filed(at, p, Joined(n, client, at(sub.filter), sub)) && Joined(n, client, at(sub.filter), sub) != EMPTY_NODE
  {
    match at(sub.filter)
    case Plain(_) => assert client in Joined(n, client, at(sub.filter), sub).subs;
    case Shared(group, _) => assert client in Joined(n, client, at(sub.filter), sub).shared[group];
  }

  lemma DepartedIsFiled(at: string -> Place, p: Path, n: Node, client: string, place: Place)
    requires Filed(at, p, n)
    ensures Filed(at, p, Departed(n, client, place))
  {
  }

  lemma JoinedCoherent(f: Trie, retained: map<string, Message>, client: string, sub: Subscription)
    requires Coherent(f, retained) && sub.identifiers == None
    ensures var place := PlaceOf(sub.filter); var after := Joined(At(f, place.path), client, place, sub);
            Coherent(With(f, place.path, after), retained) && after != EMPTY_NODE
  {
    var place := PlaceOf(sub.filter);
    JoinedIsFiled(PlaceOf, place.path, At(f, place.path), client, sub);
    CoherentForWith(PlaceOf, f, retained, retained, place.path, Joined(At(f, place.path), client, place, sub));
  }

  lemma DepartedCoherent(f: Trie, retained: map<string, Message>, client: string, place: Place)
    requires Coherent(f, retained) && place.path != []
    ensures Coherent(With(f, place.path, Departed(At(f, place.path), client, place)), retained)
  {
    DepartedIsFiled(PlaceOf, place.path, At(f, place.path), client, place);
    CoherentForWith(PlaceOf, f, retained, retained, place.path, Departed(At(f, place.path), client, place));
  }

  lemma DepartedAbsent(f: Trie, client: string, place: Place)
    requires place.path !in f
    ensures With(f, place.path, Departed(At(f, place.path), client, place)) == f
  {
  }

  lemma DropInlineAbsent(f: Trie, path: Path, id: int)
    requires path !in f
    ensures With(f, path, DropInline(At(f, path), id)) == f
  {
  }

  lemma InlineCoherent(f: Trie, retained: map<string, Message>, path: Path, inline: map<int, Subscription>)
    requires Coherent(f, retained) && path != []
    ensures Coherent(With(f, path, At(f, path).(inline := inline)), retained)
  {
    CoherentForWith(PlaceOf, f, retained, retained, path, At(f, path).(inline := inline));
  }

  lemma RetainedCoherent(f: Trie, retained: map<string, Message>, msg: Message)
    requires Coherent(f, retained) && msg.topic != ""
    ensures var path := Split(msg.topic); var n := At(f, path).(retainPath := msg.topic);
            Coherent(With(f, path, n), retained[msg.topic := msg]) && n != EMPTY_NODE
  {
    var path := Split(msg.topic);
    forall t <- retained | Split(t) == path ensures t == msg.topic { SplitInjective(t, msg.topic); }
    CoherentForWith(PlaceOf, f, retained, retained[msg.topic := msg], path, At(f, path).(retainPath := msg.topic));
  }

  lemma ReleasedCoherent(f: Trie, retained: map<string, Message>, topic: string)
    requires Coherent(f, retained)
    ensures var path := Split(topic);
            Coherent(With(f, path, At(f, path).(retainPath := "")), retained - {topic})
  {
    var path := Split(topic);
    forall t <- retained | Split(t) == path ensures t == topic { SplitInjective(t, topic); }
    CoherentForWith(PlaceOf, f, retained, retained - {topic}, path, At(f, path).(retainPath := ""));
  }

  /** A version 5 message past its own expiry, or any message past the server's maximum age. */
  predicate IsExpired(m: Message, now: int, maxExpiry: int) {
    (m.version == 5 && 0 < m.expiry < now) || (maxExpiry > 0 && now - m.created > maxExpiry)
  }

  /** `all` without the expired messages that are not in `left`. */
  function Unexpired(all: map<string, Message>, left: set<string>, now: int, maxExpiry: int): map<string, Message> {
    map t | t in all && (t in left || !IsExpired(all[t], now, maxExpiry)) :: all[t]
  }

  lemma UnexpiredStep(all: map<string, Message>, left: set<string>, t: string, now: int, maxExpiry: int)
    requires t in left && left <= all.Keys
    ensures var kept := Unexpired(all, left, now, maxExpiry);
            Unexpired(all, left - {t}, now, maxExpiry) == if IsExpired(all[t], now, maxExpiry) then kept - {t} else kept
  {
  }

  lemma FewerCoherent(f: Trie, retained: map<string, Message>, fewer: map<string, Message>)
    requires Coherent(f, retained) && fewer.Keys <= retained.Keys && forall t <- fewer :: fewer[t] == retained[t]
    ensures Coherent(f, fewer)
  {
  }

  lemma FillMeansWith(t: Trie, path: Path, n: Node)
    requires PrefixClosed(t) && Pruned(t)
    ensures var g := Grow(t, path);
            && PrefixClosed(g[path := n]) && PrunedBut(g[path := n], path)
            && g[path] == At(Flat(t), path)
            && Flat(g[path := n]) == With(Flat(t), path, n)
            && (n != EMPTY_NODE ==> Pruned(g[path := n]))
  {
    GrowKeeps(t, path);
    GrowPrunedBut(t, path);
    FillKeeps(Grow(t, path), path, n);
  }
}
