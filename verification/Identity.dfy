/** Logical servers and the containers they are bound to. */
module Identity {

  import opened Wrappers

  const LAST_SEEN_WRITE := 60_000

  datatype Status = Active | Missing | Ambiguous | ReviewRequired

  /** A server row; an empty container or pending fingerprint is none. */
  datatype Server = Server(
    container: string,
    displayName: string,
    gameType: string,
    status: Status,
    revision: nat,
    fingerprint: string,
    pending: string,
    pendingGame: string,
    review: bool,
    lastSeen: int)

  /** What Docker reports: external and fingerprint are None where their
    * computation fails, and a fingerprint is never empty. */
  datatype Observation = Observation(
    container: string,
    displayName: string,
    gameType: string,
    external: Option<string>,
    fingerprint: Option<string>)

  // A row is named by its host and its external identity, which are unique.
  datatype Key = Key(host: string, external: string)

  datatype Bound = Bound(container: string, fingerprint: string, accepted: bool)

  datatype Entry = Entry(key: Key, revision: nat)

  type Servers = map<Key, Server>

  /** Every binding that was ever made, by its revision. */
  type History = map<Entry, Bound>

  predicate ValidObservation(o: Observation) {
    (o.external.Some? ==> o.container != "") && (o.fingerprint.Some? ==> o.fingerprint.value != "")
  }

  predicate Usable(s: Server) {
    s.status.Active? && !s.review && s.container != ""
  }

  // Apply, row by row

  /** One container of a server that is known. */
  function Settled(s: Server, o: Observation, fingerprint: string, now: int): Server {
    var material := s.fingerprint != "" && fingerprint != s.fingerprint;
    var review := s.review || material;
    var changed := s.container != o.container ||
      (if review then s.pending != fingerprint else s.fingerprint != fingerprint);
    var same := !changed && now - s.lastSeen < LAST_SEEN_WRITE && s.displayName == o.displayName &&
      (if review then s.status.ReviewRequired? && s.review && s.pendingGame == o.gameType
       else s.status.Active? && s.gameType == o.gameType);
    if same then s
    else
      var revision := if changed then s.revision + 1 else s.revision;
      var seen := s.(container := o.container, displayName := o.displayName, revision := revision, lastSeen := now);
      if review then seen.(status := ReviewRequired, pending := fingerprint, pendingGame := o.gameType, review := true)
      else seen.(status := Active, gameType := o.gameType, fingerprint := fingerprint)
  }

  // The fingerprint is needed of a single container only.
  predicate Readable(group: seq<Observation>) {
    |group| == 1 ==> group[0].fingerprint.Some?
  }

  predicate Named(group: seq<Observation>) {
    forall o :: o in group ==> ValidObservation(o) && o.external.Some?
  }

  // Several containers claim one server.
  function Clash(s: Server, now: int): Server {
    if s.status.Ambiguous? && s.container == "" && now - s.lastSeen < LAST_SEEN_WRITE then s
    else s.(status := Ambiguous, container := "", lastSeen := now)
  }

  function Unseen(s: Server): Server {
    if s.status.Missing? && s.container == "" then s else s.(status := Missing, container := "")
  }

  function Added(group: seq<Observation>, now: int): Server
    requires group != [] && Readable(group)
  {
    var o := group[0];
    if |group| == 1 then
      Server(o.container, o.displayName, o.gameType, Active, 1, o.fingerprint.value, "", "", false, now)
    else Server("", o.displayName, "unknown", Ambiguous, 0, "", "", "", false, now)
  }

  /** What a snapshot makes of one server: the observations of its identity
    * alone decide. */
  function After(s: Option<Server>, group: seq<Observation>, now: int): (after: Option<Server>)
    requires Readable(group)
    ensures after.Some? <==> s.Some? || group != []
  {
    match s
    case None => if group == [] then None else Some(Added(group, now))
    case Some(server) =>
      if group == [] then Some(Unseen(server))
      else if |group| != 1 then Some(Clash(server, now))
      else Some(Settled(server, group[0], group[0].fingerprint.value, now))
  }

  // Which binding it records, at the revision of the server after it.
  function Recorded(s: Option<Server>, group: seq<Observation>, now: int): Option<Bound>
    requires Readable(group)
  {
    if |group| != 1 then None
    else
      var o := group[0];
      var after := After(s, group, now).value;
      if s.None? || after.revision != s.value.revision then Some(Bound(o.container, o.fingerprint.value, !after.review))
      else None
  }

  // Invariants

  /** What a row says of its binding is what was recorded at its revision. */
  predicate Pinned(key: Key, s: Server, history: History) {
    && (s.container != "" ==>
          && (s.status == if s.review then ReviewRequired else Active)
          && Entry(key, s.revision) in history
          && history[Entry(key, s.revision)] ==
            Bound(s.container, if s.review then s.pending else s.fingerprint, !s.review))
    && (s.status.Active? || s.status.ReviewRequired? ==> s.container != "")
    && (!s.review ==> s.pending == "")
  }

  ghost predicate Valid(servers: Servers, history: History) {
    && (forall key :: key in servers ==> Pinned(key, servers[key], history))
    && (forall e :: e in history ==> e.key in servers && e.revision <= servers[e.key].revision)
  }

  ghost predicate Extends(more: History, history: History) {
    forall e :: e in history ==> e in more && more[e] == history[e]
  }

  /** A revision names one binding: two usable states of a server at the same
    * revision, at any two times, have the same container and fingerprint. */
  lemma RevisionPins(key: Key, before: Servers, past: History, after: Servers, later: History)
    requires Valid(before, past) && Valid(after, later) && Extends(later, past)
    requires key in before && key in after && Usable(before[key]) && Usable(after[key])
    requires before[key].revision == after[key].revision
    ensures before[key].container == after[key].container && before[key].fingerprint == after[key].fingerprint
  {
  }

  predicate Reviewable(s: Server, fingerprint: string, revision: int) {
    s.status.ReviewRequired? && s.pending != "" && s.pending == fingerprint && (revision < 0 || s.revision == revision)
  }

  predicate Matches(key: Key, s: Server, o: Observation, revision: int) {
    && Usable(s) && (revision < 0 || s.revision == revision)
    && o.external == Some(key.external) && o.fingerprint == Some(s.fingerprint) && o.container == s.container
  }

  // An earlier state of the store in which the server was usable at a revision.
  ghost predicate AuthorizedAt(key: Key, past: Servers, recorded: History, revision: int, history: History) {
    Valid(past, recorded) && Extends(history, recorded) && key in past && Usable(past[key]) &&
      past[key].revision == revision
  }

  // In every earlier state that authorized this revision, it was this container
  // with this fingerprint.
  ghost predicate Faithful(key: Key, o: Observation, revision: int, history: History) {
    forall past: Servers, recorded: History :: AuthorizedAt(key, past, recorded, revision, history) ==>
      past[key].container == o.container && o.fingerprint == Some(past[key].fingerprint)
  }

  lemma ExtendsAll(a: History, b: History, c: History)
    requires Extends(b, a) && Extends(c, b)
    ensures Extends(c, a)
  {
  }

  // What one step may do to a server.
  predicate Grows(before: Server, after: Server) {
    after.revision >= before.revision && (before.fingerprint != "" ==> after.fingerprint == before.fingerprint)
  }

  lemma AfterKeeps(key: Key, s: Server, group: seq<Observation>, now: int, history: History)
    requires Pinned(key, s, history) && Readable(group) && Named(group)
    ensures var after := After(Some(s), group, now).value;
      var record := Recorded(Some(s), group, now);
      && after.revision >= s.revision && (s.fingerprint != "" ==> after.fingerprint == s.fingerprint)
      && (record.Some? <==> after.revision != s.revision)
      && Pinned(key, after, if record.Some? then history[Entry(key, after.revision) := record.value] else history)
  {
  }

  /** One container of a known server: a review is demanded exactly if one was
    * pending or the container has another fingerprint than the accepted one; the
    * revision grows exactly if the container or its fingerprint is another one;
    * and without a review the server is usable with what was observed. */
  lemma SettledIs(s: Server, o: Observation, fingerprint: string, now: int)
    ensures var after := Settled(s, o, fingerprint, now);
      && (after.review <==> s.review || (s.fingerprint != "" && fingerprint != s.fingerprint))
      && after.container == o.container && after.displayName == o.displayName
      && after.revision == s.revision + (if s.container == o.container &&
           fingerprint == (if after.review then s.pending else s.fingerprint) then 0 else 1)
      && (if after.review then
            && after.status.ReviewRequired? && after.pending == fingerprint && after.pendingGame == o.gameType
            && after.fingerprint == s.fingerprint && after.gameType == s.gameType
          else
            && after.status.Active? && after.fingerprint == fingerprint && after.gameType == o.gameType
            && after.pending == s.pending)
      && (after.lastSeen == now || (after == s && now - s.lastSeen < 60_000))
  {
  }

  /** A server that several containers claim, or that none is seen of, is not
    * usable, keeps what was accepted and is otherwise only marked. */
  lemma UnboundIs(s: Server, group: seq<Observation>, now: int)
    requires |group| != 1
    ensures var after := After(Some(s), group, now).value;
      && after.status == (if group == [] then Missing else Ambiguous) && after.container == "" && !Usable(after)
      && after.(status := s.status, container := s.container, lastSeen := s.lastSeen) == s
      && (group == [] ==> after.lastSeen == s.lastSeen)
      && (group != [] ==> after.lastSeen == now || (after == s && now - s.lastSeen < 60_000))
  {
  }

  /** A server that is seen for the first time is usable at revision 1 as it was
    * observed, or, if several containers claim it, is ambiguous at revision 0. */
  lemma AddedIs(group: seq<Observation>, now: int)
    requires group != [] && Readable(group) && Named(group)
    ensures var s := After(None, group, now).value;
      && s.displayName == group[0].displayName && s.lastSeen == now
      && !s.review && s.pending == "" && s.pendingGame == ""
      && (if |group| == 1 then
            && Usable(s) && s.revision == 1 && s.container == group[0].container
            && group[0].fingerprint == Some(s.fingerprint) && s.gameType == group[0].gameType
          else
            && s.status.Ambiguous? && s.revision == 0 && s.container == "" && s.fingerprint == ""
            && s.gameType == "unknown")
  {
  }

  lemma AddedKeeps(key: Key, group: seq<Observation>, now: int, history: History)
    requires group != [] && Readable(group) && Named(group)
    ensures var after := After(None, group, now).value;
      var record := Recorded(None, group, now);
      Pinned(key, after, if record.Some? then history[Entry(key, after.revision) := record.value] else history)
  {
  }

  // A whole snapshot

  /** The observations of one external identity. */
  function Group(observations: seq<Observation>, external: string): (group: seq<Observation>)
    ensures forall o :: o in group <==> o in observations && o.external == Some(external)
  {
    if observations == [] then []
    else
      var last := observations[|observations| - 1];
      assert observations == observations[..|observations| - 1] + [last];
      Group(observations[..|observations| - 1], external) + if last.external == Some(external) then [last] else []
  }

  /** A snapshot that Docker could not have reported, or could not be read. */
  predicate Bad(observations: seq<Observation>) {
    || (exists o :: o in observations && o.external.None?)
    || (exists i, j :: 0 <= i < j < |observations| && observations[i].container == observations[j].container)
    || (exists o :: o in observations && o.external.Some? && !Readable(Group(observations, o.external.value)))
  }

  function Lookup(servers: Servers, key: Key): Option<Server> {
    if key in servers then Some(servers[key]) else None
  }

  // A row of the host that the snapshot does not name becomes missing.
  function IfUnseen(servers: Servers, key: Key, host: string, named: set<string>): Option<Server> {
    if key in servers && key.host == host && key.external !in named then Some(Unseen(servers[key]))
    else Lookup(servers, key)
  }

  // What the snapshot of a host makes of every row.
  ghost predicate Applied(before: Servers, after: Servers, observations: seq<Observation>, host: string, now: int)
    requires !Bad(observations)
  {
    forall key ::
      Lookup(after, key) == if key.host == host then After(Lookup(before, key), Whole(observations, key.external), now)
                            else Lookup(before, key)
  }

  function Whole(observations: seq<Observation>, external: string): (group: seq<Observation>)
    requires !Bad(observations)
    ensures group == Group(observations, external) && Readable(group)
  {
    var group := Group(observations, external);
    assert group != [] ==> group[0] in observations && group[0].external == Some(external);
    group
  }

  ghost predicate Grown(before: Servers, after: Servers) {
    forall key :: key in before ==> key in after && Grows(before[key], after[key])
  }

  /** No container is bound to two servers of a host. */
  ghost predicate OwnContainers(servers: Servers, host: string) {
    forall a, b :: (a in servers && b in servers && a.host == host && b.host == host && servers[a].container != "" &&
                   servers[a].container == servers[b].container) ==> a == b
  }

  // After a snapshot a bound container is the one observation of its server.
  lemma AppliedBinds(before: Servers, after: Servers, observations: seq<Observation>, host: string, now: int, key: Key)
    requires !Bad(observations) && Applied(before, after, observations, host, now)
    requires key in after && key.host == host && after[key].container != ""
    ensures exists o :: o in observations && o.external == Some(key.external) && o.container == after[key].container
  {
  }

  lemma AppliedOwns(before: Servers, after: Servers, observations: seq<Observation>, host: string, now: int)
    requires !Bad(observations) && Applied(before, after, observations, host, now)
    ensures OwnContainers(after, host)
  {
    hide Applied, Bad;
    forall a, b | a in after && b in after && a.host == host && b.host == host && after[a].container != "" &&
      after[a].container == after[b].container
      ensures a == b
    {
      AppliedBinds(before, after, observations, host, now, a);
      AppliedBinds(before, after, observations, host, now, b);
      var o :| o in observations && o.external == Some(a.external) && o.container == after[a].container;
      var p :| p in observations && p.external == Some(b.external) && p.container == after[b].container;
      SameContainer(observations, o, p);
    }
  }

  lemma SameContainer(observations: seq<Observation>, o: Observation, p: Observation)
    requires !Bad(observations) && o in observations && p in observations && o.container == p.container
    ensures o == p
  {
  }

  datatype Problem =
    | BadSnapshot
    | NotFound
    | Unavailable
    | BindingChanged
    | ReviewChanged
    | BadObservation
    | DatabaseFailed

  class Store {
    var servers: Servers
    var history: History

    constructor ()
      ensures Ready() && servers == map[] && history == map[]
    {
      servers, history := map[], map[];
    }

    ghost predicate Ready()
      reads this
    {
      Valid(servers, history)
    }

    // recordBinding and the row it belongs to.
    method Save(key: Key, server: Server, record: Option<Bound>)
      modifies this
      ensures servers == old(servers)[key := server]
      ensures history == if record.Some? then old(history)[Entry(key, server.revision) := record.value]
              else old(history)
    {
      servers := servers[key := server];
      if record.Some? {
        history := history[Entry(key, server.revision) := record.value];
      }
    }

    // One external identity of the snapshot.
    method ApplyOne(key: Key, group: seq<Observation>, now: int)
      requires Ready() && group != [] && Readable(group) && Named(group)
      modifies this
      ensures Ready() && Extends(history, old(history)) && Grown(old(servers), servers)
      ensures servers == old(servers)[key := After(Lookup(old(servers), key), group, now).value]
    {
      hide After, Recorded, Pinned, Grows;
      var server := Lookup(servers, key);
      ghost var after, record := After(server, group, now).value, Recorded(server, group, now);
      if server.None? {
        AddedKeeps(key, group, now, history);
        SaveKeeps(servers, history, key, after, record);
        AddRow(key, group, now);
      } else {
        AfterKeeps(key, server.value, group, now, history);
        SaveKeeps(servers, history, key, after, record);
        UpdateRow(key, server.value, group, now);
      }
      GrownAt(old(servers), key, after);
    }

    // The rows of the host that the snapshot does not name.
    method MarkMissing(host: string, groups: map<string, seq<Observation>>)
      requires Ready()
      modifies this
      ensures Ready() && history == old(history) && Grown(old(servers), servers)
      ensures forall key :: Lookup(servers, key) == IfUnseen(old(servers), key, host, groups.Keys)
    {
      hide Valid, Grows, Unseen;
      assert Grown(servers, servers) by { GrownSame(servers); }
      var left := servers.Keys;
      while left != {}
        invariant Ready() && history == old(history) && Grown(old(servers), servers)
        invariant left <= old(servers).Keys
        invariant forall key :: key !in left ==> Lookup(servers, key) == IfUnseen(old(servers), key, host, groups.Keys)
        invariant forall key :: key in left ==> Lookup(servers, key) == Some(old(servers)[key])
      {
        var key :| key in left;
        left := left - {key};
        assert Lookup(servers, key) == Some(old(servers)[key]);
        if key.host == host && key.external !in groups {
          ghost var before := servers;
          UnseenKeeps(servers, history, key);
          GrownAt(servers, key, Unseen(servers[key]));
          servers := servers[key := Unseen(servers[key])];
          GrownAll(old(servers), before, servers);
        }
      }
    }

    /** Apply: a complete snapshot of a host decides every row of it; a refused
      * or failed one changes nothing. Revisions never decrease, an accepted
      * fingerprint stays, and no container is left bound twice. */
    method Apply(observations: seq<Observation>, host: string, now: int) returns (result: Option<Problem>)
      requires Ready() && forall o :: o in observations ==> ValidObservation(o)
      modifies this
      ensures Ready() && Extends(history, old(history)) && Grown(old(servers), servers)
      ensures Bad(observations) <==> result == Some(BadSnapshot)
      ensures result.Some? ==> servers == old(servers) && history == old(history)
      ensures result in {None, Some(BadSnapshot), Some(DatabaseFailed)}
      ensures result.None? ==>
              !Bad(observations) && Applied(old(servers), servers, observations, host, now) &&
                OwnContainers(servers, host)
    {
      hide Valid, Bad, Group, After, Applied, Collected, Once, Grows;
      assert Grown(servers, servers) by { GrownSame(servers); }
      var ok, groups, order := Collect(observations);
      if !ok {
        return Some(BadSnapshot);
      }
      ok := Fingerprints(observations, groups, order);
      if !ok {
        return Some(BadSnapshot);
      }
      var before, past := servers, history;
      ApplyGroups(observations, groups, order, host, now);
      ghost var mid := servers;
      MarkMissing(host, groups);
      GrownAll(before, mid, servers);
      AppliedWhole(before, mid, servers, observations, groups, order, host, now);
      var failed: bool := *;
      if failed {
        servers, history := before, past;
        return Some(DatabaseFailed);
      }
      AppliedOwns(before, servers, observations, host, now);
      return None;
    }

    method ApplyGroups(observations: seq<Observation>, groups: map<string, seq<Observation>>,
                       order: seq<string>, host: string, now: int)
      requires Ready() && !Bad(observations) && Collected(observations, groups, order)
      requires forall o :: o in observations ==> ValidObservation(o)
      modifies this
      ensures Ready() && Extends(history, old(history)) && Grown(old(servers), servers)
      ensures ForGroups(old(servers), servers, observations, order, host, now)
    {
      hide Valid, Bad, Group, After, Grows;
      assert Grown(servers, servers) by { GrownSame(servers); }
      for i := 0 to |order|
        invariant Ready() && Extends(history, old(history)) && Grown(old(servers), servers)
        invariant ForGroups(old(servers), servers, observations, order[..i], host, now)
      {
        var key := Key(host, order[i]);
        var group := groups[order[i]];
        ghost var mid, past := servers, history;
        assert order[i] !in order[..i];
        assert order[..i + 1] == order[..i] + [order[i]];
        assert group == Whole(observations, order[i]);
        ApplyOne(key, group, now);
        GrownAll(old(servers), mid, servers);
      }
      assert order[..|order|] == order;
    }

    /** ReviewBinding accepts exactly the pending binding that was reviewed, at
      * a new revision; nothing else changes. */
    method ReviewBinding(key: Key, expectedFingerprint: string, expectedRevision: int) returns (result: Option<Problem>)
      requires Ready()
      modifies this
      ensures Ready() && Extends(history, old(history))
      ensures result.Some? ==> servers == old(servers) && history == old(history)
      ensures result.None? <==>
              key in old(servers) && Reviewable(old(servers)[key], expectedFingerprint, expectedRevision)
      ensures result.None? ==> key in servers && servers - {key} == old(servers) - {key} && Usable(servers[key])
      ensures result.None? ==>
              servers[key].container == old(servers)[key].container && servers[key].fingerprint == expectedFingerprint
      ensures result.None? ==> servers[key].revision == old(servers)[key].revision + 1
      ensures result.None? ==>
              var before := old(servers)[key];
              before.status.ReviewRequired? && before.pending == expectedFingerprint != "" &&
                servers[key].gameType == before.pendingGame
      ensures result.None? && expectedRevision >= 0 ==> old(servers)[key].revision == expectedRevision
    {
      if key !in servers {
        return Some(NotFound);
      }
      var server := servers[key];
      assert Pinned(key, server, history);
      if !server.status.ReviewRequired? || server.container == "" || server.pending == "" ||
        server.pending != expectedFingerprint ||
        (expectedRevision >= 0 && server.revision != expectedRevision) {
        return Some(ReviewChanged);
      }
      var after := server.(status := Active, revision := server.revision + 1, fingerprint := server.pending,
                           gameType := server.pendingGame,
                           pending := "", pendingGame := "", review := false);
      var record := Some(Bound(server.container, expectedFingerprint, true));
      SaveKeeps(servers, history, key, after, record);
      assert servers[key := after] - {key} == servers - {key};
      Save(key, after, record);
      return None;
    }

    /** ResolveBinding: the server, only while its binding is usable. */
    method ResolveBinding(key: Key, expectedRevision: int) returns (result: Result<Server, Problem>)
      ensures result.Ok? <==>
              key in servers && Usable(servers[key]) &&
                (expectedRevision < 0 || servers[key].revision == expectedRevision)
      ensures result.Ok? ==> result.value == servers[key]
      ensures result.Err? ==>
              result.error == if key !in servers then NotFound else if !Usable(servers[key]) then Unavailable
                else BindingChanged
    {
      if key !in servers {
        return Err(NotFound);
      }
      var server := servers[key];
      if !server.status.Active? || server.review || server.container == "" {
        return Err(Unavailable);
      }
      if expectedRevision >= 0 && server.revision != expectedRevision {
        return Err(BindingChanged);
      }
      return Ok(server);
    }

    /** AssertObservedBinding: an operation authorized at a revision goes on
      * only with the container and fingerprint it was authorized for, whenever
      * that was. */
    method AssertObservedBinding(key: Key, o: Observation,
                                 expectedRevision: int) returns (result: Result<Server, Problem>)
      requires Ready()
      ensures result.Ok? <==> key in servers && Matches(key, servers[key], o, expectedRevision)
      ensures result.Ok? ==> Faithful(key, o, expectedRevision, history)
      ensures result.Ok? ==>
              var s := result.value;
              s == servers[key] && s.status.Active? && !s.review && s.container == o.container != "" &&
                o.external == Some(key.external) && o.fingerprint == Some(s.fingerprint)
      ensures result.Ok? && expectedRevision >= 0 ==> servers[key].revision == expectedRevision
    {
      var resolved := ResolveBinding(key, expectedRevision);
      if resolved.Err? {
        return resolved;
      }
      if o.external.None? || o.fingerprint.None? {
        return Err(BadObservation);
      }
      var server := resolved.value;
      if server.container != o.container || key.external != o.external.value ||
        server.fingerprint != o.fingerprint.value {
        return Err(BindingChanged);
      }
      forall past: Servers, recorded: History | AuthorizedAt(key, past, recorded, expectedRevision, history)
        ensures past[key].container == o.container && o.fingerprint == Some(past[key].fingerprint)
      {
        RevisionPins(key, past, recorded, servers, history);
      }
      return resolved;
    }

    method AddRow(key: Key, group: seq<Observation>, now: int)
      requires key !in servers && group != [] && Readable(group)
      modifies this
      ensures servers == old(servers)[key := After(None, group, now).value]
      ensures var record := Recorded(None, group, now);
        history == if record.Some? then old(history)[Entry(key, servers[key].revision) := record.value]
          else old(history)
    {
      var o := group[0];
      var ambiguous := |group| != 1;
      if ambiguous {
        Save(key, Server("", o.displayName, "unknown", Ambiguous, 0, "", "", "", false, now), None);
      } else {
        var f := o.fingerprint.value;
        Save(key, Server(o.container, o.displayName, o.gameType, Active, 1, f, "", "", false, now),
          Some(Bound(o.container, f, true)));
      }
    }

    method UpdateRow(key: Key, server: Server, group: seq<Observation>, now: int)
      requires key in servers && servers[key] == server && group != [] && Readable(group)
      modifies this
      ensures servers == old(servers)[key := After(Some(server), group, now).value]
      ensures var record := Recorded(Some(server), group, now);
        history == if record.Some? then old(history)[Entry(key, servers[key].revision) := record.value]
          else old(history)
    {
      assert servers[key := server] == servers;
      var o := group[0];
      var seenRecently := now - server.lastSeen < LAST_SEEN_WRITE;
      if |group| != 1 {
        if !(server.status.Ambiguous? && server.container == "" && seenRecently) {
          Save(key, server.(status := Ambiguous, container := "", lastSeen := now), None);
        }
        return;
      }
      var fingerprint := o.fingerprint.value;
      var material := server.fingerprint != "" && fingerprint != server.fingerprint;
      var review := server.review || material;
      var changed := server.container != o.container;
      if review {
        changed := changed || server.pending != fingerprint;
      } else {
        changed := changed || server.fingerprint != fingerprint;
      }
      var same := !changed && seenRecently && server.displayName == o.displayName;
      if review {
        same := same && server.status.ReviewRequired? && server.review && server.pendingGame == o.gameType;
      } else {
        same := same && server.status.Active? && server.gameType == o.gameType;
      }
      if same {
        return;
      }
      var revision := server.revision;
      if changed {
        revision := revision + 1;
      }
      var seen := server.(container := o.container, displayName := o.displayName, revision := revision,
        lastSeen := now);
      var record := if changed then Some(Bound(o.container, fingerprint, !review)) else None;
      if review {
        Save(key, seen.(status := ReviewRequired, pending := fingerprint, pendingGame := o.gameType, review := true),
          record);
      } else {
        Save(key, seen.(status := Active, gameType := o.gameType, fingerprint := fingerprint), record);
      }
    }
  }

  // Some identities of a snapshot were applied.
  ghost predicate ForGroups(before: Servers, after: Servers, observations: seq<Observation>,
                            order: seq<string>, host: string, now: int)
    requires !Bad(observations)
  {
    forall key ::
      Lookup(after, key) ==
        if key.host == host && key.external in order
        then After(Lookup(before, key), Whole(observations, key.external), now)
        else Lookup(before, key)
  }

  lemma AppliedWhole(before: Servers, mid: Servers, after: Servers, observations: seq<Observation>,
                     groups: map<string, seq<Observation>>, order: seq<string>, host: string, now: int)
    requires !Bad(observations) && Collected(observations, groups, order)
    requires ForGroups(before, mid, observations, order, host, now)
    requires forall key :: Lookup(after, key) == IfUnseen(mid, key, host, groups.Keys)
    ensures Applied(before, after, observations, host, now)
  {
  }

  lemma GrownSame(servers: Servers)
    ensures Grown(servers, servers)
  {
  }

  // The rows of the host that the snapshot does not name become missing.
  lemma UnseenKeeps(servers: Servers, history: History, key: Key)
    requires Valid(servers, history) && key in servers
    ensures Valid(servers[key := Unseen(servers[key])], history) && Grows(servers[key], Unseen(servers[key]))
  {
  }

  lemma GrownAll(a: Servers, b: Servers, c: Servers)
    requires Grown(a, b) && Grown(b, c)
    ensures Grown(a, c)
  {
  }

  lemma GrownAt(servers: Servers, key: Key, after: Server)
    requires key in servers ==> Grows(servers[key], after)
    ensures Grown(servers, servers[key := after])
  {
  }

  lemma SaveKeeps(servers: Servers, history: History, key: Key, after: Server, record: Option<Bound>)
    requires Valid(servers, history)
    requires key in servers ==> after.revision >= servers[key].revision
    requires key in servers && record.Some? ==> after.revision > servers[key].revision
    requires Pinned(key, after, if record.Some? then history[Entry(key, after.revision) := record.value] else history)
    ensures var more := if record.Some? then history[Entry(key, after.revision) := record.value] else history;
      Valid(servers[key := after], more) && Extends(more, history)
  {
  }

  // The observations by identity, in the order of their first.
  method Collect(observations: seq<Observation>) returns (ok: bool, groups: map<string, seq<Observation>>,
                 order: seq<string>)
    ensures ok ==> Collected(observations, groups, order) && Once(observations)
    ensures !ok ==> Bad(observations)
  {
    hide Collected, Group;
    groups, order := map[], [];
    var seen: set<string> := {};
    CollectedNone(observations);
    for i := 0 to |observations|
      invariant seen == set j | 0 <= j < i :: observations[j].container
      invariant Once(observations[..i]) && Collected(observations[..i], groups, order)
    {
      var o := observations[i];
      if o.external.None? {
        assert o in observations;
        return false, groups, order;
      }
      if o.container in seen {
        ghost var j :| 0 <= j < i && observations[j].container == o.container;
        return false, groups, order;
      }
      seen := seen + {o.container};
      assert observations[..i + 1] == observations[..i] + [o];
      CollectedMore(observations[..i], o, groups, order);
      var e := o.external.value;
      if e !in groups {
        order, groups := order + [e], groups[e := [o]];
      } else {
        groups := groups[e := groups[e] + [o]];
      }
    }
    assert observations[..|observations|] == observations;
    return true, groups, order;
  }

  // Every single container's fingerprint can be computed.
  method Fingerprints(observations: seq<Observation>, groups: map<string, seq<Observation>>,
                      order: seq<string>) returns (ok: bool)
    requires Collected(observations, groups, order) && Once(observations)
    ensures ok <==> !Bad(observations)
  {
    hide Group, Bad;
    for i := 0 to |order|
      invariant forall j :: 0 <= j < i ==> Readable(Group(observations, order[j]))
    {
      var group := groups[order[i]];
      if |group| == 1 && group[0].fingerprint.None? {
        assert group[0] in group && group[0] in observations && group[0].external == Some(order[i]);
        Unreadable(observations, group[0]);
        return false;
      }
    }
    Coherent(observations, groups, order);
    return true;
  }

  lemma Unreadable(observations: seq<Observation>, o: Observation)
    requires o in observations && o.external.Some? && !Readable(Group(observations, o.external.value))
    ensures Bad(observations)
  {
  }

  ghost predicate Once(observations: seq<Observation>) {
    && (forall j, k :: 0 <= j < k < |observations| ==> observations[j].container != observations[k].container)
    && (forall j :: 0 <= j < |observations| ==> observations[j].external.Some?)
  }

  lemma CollectedNone(observations: seq<Observation>)
    ensures Collected(observations[..0], map[], [])
  {
  }

  ghost predicate Collected(observations: seq<Observation>, groups: map<string, seq<Observation>>, order: seq<string>) {
    && (forall e :: e in groups <==> Group(observations, e) != [])
    && (forall e :: e in groups ==> groups[e] == Group(observations, e))
    && (forall e :: e in order <==> e in groups)
    && (forall i, j :: 0 <= i < j < |order| ==> order[i] != order[j])
  }

  lemma CollectedMore(observations: seq<Observation>, o: Observation, groups: map<string, seq<Observation>>,
                      order: seq<string>)
    requires Collected(observations, groups, order) && o.external.Some?
    ensures var e := o.external.value;
      && (e in groups ==> Collected(observations + [o], groups[e := groups[e] + [o]], order))
      && (e !in groups ==> Collected(observations + [o], groups[e := [o]], order + [e]))
  {
    hide Group;
    forall e
      ensures Group(observations + [o], e) == Group(observations, e) + if o.external == Some(e) then [o] else []
    {
      GroupMore(observations, o, e);
    }
    var e := o.external.value;
    if e !in groups {
      assert [] + [o] == [o];
      assert forall x :: x in order + [e] <==> x in order || x == e;
    }
  }

  lemma GroupMore(observations: seq<Observation>, o: Observation, e: string)
    ensures Group(observations + [o], e) == Group(observations, e) + if o.external == Some(e) then [o] else []
  {
  }

  lemma Coherent(observations: seq<Observation>, groups: map<string, seq<Observation>>, order: seq<string>)
    requires Collected(observations, groups, order) && Once(observations)
    requires forall i :: 0 <= i < |order| ==> Readable(Group(observations, order[i]))
    ensures !Bad(observations)
  {
  }

  // Any run of the store

  datatype Call =
    | Snapshot(observations: seq<Observation>, host: string, now: int)
    | Review(key: Key, fingerprint: string, revision: int)

  datatype Table = Table(servers: Servers, history: History)

  // A call changes nothing, or what it is for.
  ghost predicate Served(c: Call, before: Table, after: Table) {
    after == before ||
    match c
    case Snapshot(observations, host, now) =>
      !Bad(observations) && Applied(before.servers, after.servers, observations, host, now)
    case Review(key, fingerprint, revision) =>
      && key in before.servers && Reviewable(before.servers[key], fingerprint, revision)
      && key in after.servers && after.servers[key].fingerprint == fingerprint
      && after.servers - {key} == before.servers - {key}
  }

  /** No server is forgotten, no revision decreases, and where a server is usable
    * at the same revision it has the same container and fingerprint. */
  ghost predicate Agree(earlier: Servers, later: Servers) {
    forall key :: key in earlier ==>
      && key in later && later[key].revision >= earlier[key].revision
      && (Usable(earlier[key]) && Usable(later[key]) && earlier[key].revision == later[key].revision ==>
            later[key].container == earlier[key].container && later[key].fingerprint == earlier[key].fingerprint)
  }

  ghost predicate Kept(earlier: Table, later: Table) {
    && Valid(earlier.servers, earlier.history) && Extends(later.history, earlier.history)
    && forall key :: key in earlier.servers ==>
         key in later.servers && later.servers[key].revision >= earlier.servers[key].revision
  }

  lemma KeptAll(a: Table, b: Table, c: Table)
    requires Kept(a, b) && Kept(b, c)
    ensures Kept(a, c)
  {
    hide Valid;
    ExtendsAll(a.history, b.history, c.history);
  }

  lemma KeptAgrees(earlier: Table, later: Table)
    requires Kept(earlier, later) && Valid(later.servers, later.history)
    ensures Agree(earlier.servers, later.servers)
  {
    hide Valid, Extends;
    forall key | key in earlier.servers && Usable(earlier.servers[key]) && Usable(later.servers[key]) &&
                 earlier.servers[key].revision == later.servers[key].revision
      ensures later.servers[key].container == earlier.servers[key].container
      ensures later.servers[key].fingerprint == earlier.servers[key].fingerprint
    {
      RevisionPins(key, earlier.servers, earlier.history, later.servers, later.history);
    }
  }

  method Answer(store: Store, c: Call)
    requires store.Ready() && (c.Snapshot? ==> forall o :: o in c.observations ==> ValidObservation(o))
    modifies store
    ensures store.Ready()
    ensures Served(c, Table(old(store.servers), old(store.history)), Table(store.servers, store.history))
    ensures Kept(Table(old(store.servers), old(store.history)), Table(store.servers, store.history))
  {
    hide Valid, Bad, Applied, Usable;
    var problem;
    match c
    case Snapshot(observations, host, now) => problem := store.Apply(observations, host, now);
    case Review(key, fingerprint, revision) =>
      ghost var before := store.servers;
      problem := store.ReviewBinding(key, fingerprint, revision);
      forall other | other in before && other != key
        ensures other in store.servers && store.servers[other] == before[other]
      {
        assert problem.None? ==> other in before - {key} && (before - {key})[other] == before[other];
        assert problem.None? ==> (store.servers - {key})[other] == before[other];
      }
  }

  /** Over any snapshots and reviews, from an empty store: at any two times the
    * states of the store agree. `tables` are those states, in order. */
  method Serve(calls: seq<Call>) returns (store: Store, ghost tables: seq<Table>)
    requires forall c :: c in calls && c.Snapshot? ==> forall o :: o in c.observations ==> ValidObservation(o)
    ensures |tables| == |calls| + 1 && tables[0] == Table(map[], map[])
    ensures tables[|calls|] == Table(store.servers, store.history)
    ensures forall k :: 0 <= k < |calls| ==> Served(calls[k], tables[k], tables[k + 1])
    ensures forall i, j :: 0 <= i <= j < |tables| ==> Agree(tables[i].servers, tables[j].servers)
  {
    hide Valid, Extends, Served, Agree, Kept;
    store := new Store();
    tables := [Table(map[], map[])];
    assert Kept(tables[0], tables[0]) by { KeptSame(tables[0]); }
    KeptAgrees(tables[0], tables[0]);
    for n := 0 to |calls|
      invariant fresh(store) && store.Ready()
      invariant |tables| == n + 1 && tables[0] == Table(map[], map[])
      invariant tables[n] == Table(store.servers, store.history)
      invariant forall k :: 0 <= k < n ==> Served(calls[k], tables[k], tables[k + 1])
      invariant forall i :: 0 <= i <= n ==> Kept(tables[i], tables[n])
      invariant forall i, j :: 0 <= i <= j <= n ==> Agree(tables[i].servers, tables[j].servers)
    {
      ghost var before := tables[n];
      Answer(store, calls[n]);
      ghost var after := Table(store.servers, store.history);
      assert Kept(after, after) by { KeptSame(after); }
      KeptAgrees(after, after);
      forall i | 0 <= i <= n
        ensures Kept(tables[i], after) && Agree(tables[i].servers, after.servers)
      {
        KeptAll(tables[i], before, after);
        KeptAgrees(tables[i], after);
      }
      tables := tables + [after];
    }
  }

  lemma KeptSame(table: Table)
    requires Valid(table.servers, table.history)
    ensures Kept(table, table)
  {
  }
}
