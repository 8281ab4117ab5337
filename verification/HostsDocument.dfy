/** The saved hosts: their groups, the order of those outside any group, and the built-in host of
    local terminals, which is always there and always first. */
module HostsDocument {
  import opened Options
  import opened Lists

  datatype Protocol = Ssh | Telnet | Serial | Local

  datatype Auth = Password | PrivateKey | NoAuth

  datatype Reconnect = Never | OnFocus | Always

  /** How to reach a host; a tunnel is told by its listening port. */
  datatype Connection = Connection(
    kind: Protocol,
    host: string,
    port: nat,
    username: string,
    auth: Auth,
    reconnect: Reconnect,
    jumpHostId: Option<string>,
    tunnels: seq<nat>,
    x11: bool,
    remoteSession: bool)

  datatype Host = Host(id: string, name: string, tags: seq<string>, groupId: Option<string>, connection: Connection)

  datatype Group = Group(id: string, name: string)

  /** The document: `order` lists the hosts shown outside any group. */
  datatype Document = Document(groups: seq<Group>, order: seq<string>, hosts: seq<Host>)

  const LOCAL_HOST_ID := "local"

  const LOCAL_HOST := Host(LOCAL_HOST_ID, "Local terminal", [], None,
                           Connection(Local, "", 0, "", Password, OnFocus, None, [], false, false))

  // ---------------------------------------------------------------- one connection

  function DefaultPort(kind: Protocol): nat {
    match kind
    case Ssh => 22
    case Telnet => 23
    case _ => 0
  }

  function NormalConnection(c: Connection): Connection {
    var ported := if c.port == 0 then c.(port := DefaultPort(c.kind)) else c;
    var cleared :=
      match c.kind
      case Local => ported.(host := "", port := 0, username := "", auth := NoAuth, reconnect := Never)
      case Serial => ported.(port := 0, username := "", auth := NoAuth)
      case _ => ported;
    var plain :=
      if c.kind.Ssh? then cleared
      else cleared.(tunnels := [], x11 := false, remoteSession := false, jumpHostId := None);
    plain.(tunnels := Without(plain.tunnels, 0))
  }

  lemma ConnectionSettles(c: Connection)
    ensures NormalConnection(NormalConnection(c)) == NormalConnection(c)
  {
    WithoutIs(c.tunnels, 0);
    WithoutAbsent(Without(c.tunnels, 0), 0);
    hide Without;
  }

  /** What is left of a connection, kind by kind: a saved port stays, and a missing one becomes the usual one
      where there is one; a local terminal has no address, port, user or sign-in and never reconnects; a serial
      line has no port, user or sign-in; and only SSH has tunnels, X11, a remote session and a jump host. */
  lemma NormalConnectionIs(c: Connection)
    ensures var n := NormalConnection(c);
      && n.kind == c.kind
      && n.host == (if c.kind.Local? then "" else c.host)
      && n.port == (if c.kind.Local? || c.kind.Serial? then 0
                    else if c.port != 0 then c.port
                    else if c.kind.Ssh? then 22 else 23)
      && n.username == (if c.kind.Local? || c.kind.Serial? then "" else c.username)
      && n.auth == (if c.kind.Local? || c.kind.Serial? then NoAuth else c.auth)
      && n.reconnect == (if c.kind.Local? then Never else c.reconnect)
      && n.jumpHostId == (if c.kind.Ssh? then c.jumpHostId else None)
      && n.x11 == (c.kind.Ssh? && c.x11) && n.remoteSession == (c.kind.Ssh? && c.remoteSession)
      && n.tunnels == (if c.kind.Ssh? then Without(c.tunnels, 0) else [])
  {
  }

  // ---------------------------------------------------------------- lists of ids

  function HostIds(hosts: seq<Host>): set<string> {
    set host | host in hosts :: host.id
  }

  function GroupIds(groups: seq<Group>): set<string> {
    set group | group in groups :: group.id
  }

  /** The ids of `order` that are in `ids`. */
  function Within(order: seq<string>, ids: set<string>): seq<string> {
    if order == [] then []
    else
      var rest, last := Within(order[..|order| - 1], ids), order[|order| - 1];
      if last in ids then rest + [last] else rest
  }

  function Outside(order: seq<string>, ids: set<string>): seq<string> {
    if order == [] then []
    else
      var rest, last := Outside(order[..|order| - 1], ids), order[|order| - 1];
      if last in ids then rest else rest + [last]
  }

  /** Runs of the same id, each made one. */
  function Dedup(order: seq<string>): seq<string> {
    if order == [] then []
    else
      var rest, last := Dedup(order[..|order| - 1]), order[|order| - 1];
      if rest != [] && rest[|rest| - 1] == last then rest else rest + [last]
  }

  /** The ungrouped hosts that are missing from `order`, appended as they come. */
  function WithMissing(order: seq<string>, hosts: seq<Host>): seq<string> {
    if hosts == [] then order
    else
      var rest, last := WithMissing(order, hosts[..|hosts| - 1]), hosts[|hosts| - 1];
      if last.groupId.None? && last.id !in rest then rest + [last.id] else rest
  }

  predicate NeighboursDiffer(ids: seq<string>) {
    forall i :: 0 <= i < |ids| - 1 ==> ids[i] != ids[i + 1]
  }

  // ---------------------------------------------------------------- normalising

  /** The hosts with an id, each id's first one. */
  function FirstHosts(hosts: seq<Host>): seq<Host> {
    if hosts == [] then []
    else
      var rest, last := FirstHosts(hosts[..|hosts| - 1]), hosts[|hosts| - 1];
      if last.id != "" && last.id !in HostIds(rest) then rest + [last] else rest
  }

  function FirstGroups(groups: seq<Group>): seq<Group> {
    if groups == [] then []
    else
      var rest, last := FirstGroups(groups[..|groups| - 1]), groups[|groups| - 1];
      if last.id != "" && last.id !in GroupIds(rest) then rest + [last] else rest
  }

  function WithLocal(hosts: seq<Host>): seq<Host> {
    if LOCAL_HOST_ID in HostIds(hosts) then hosts else [LOCAL_HOST] + hosts
  }

  function PlainTags(blank: string -> bool, tags: seq<string>): seq<string> {
    if tags == [] then []
    else if blank(tags[0]) then PlainTags(blank, tags[1..])
    else [tags[0]] + PlainTags(blank, tags[1..])
  }

  function NormalHost(blank: string -> bool, groups: set<string>, host: Host): Host {
    var own := if host.id == LOCAL_HOST_ID
               then host.(connection := host.connection.(kind := Local), groupId := None) else host;
    own.(groupId := if own.groupId.Some? && own.groupId.value in groups then own.groupId else None,
         connection := NormalConnection(own.connection),
         tags := PlainTags(blank, own.tags))
  }

  function NormalHosts(blank: string -> bool, groups: set<string>, hosts: seq<Host>): seq<Host> {
    seq(|hosts|, i requires 0 <= i < |hosts| => NormalHost(blank, groups, hosts[i]))
  }

  function Grouped(hosts: seq<Host>): set<string> {
    set host | host in hosts && host.groupId.Some? :: host.id
  }

  function Ungrouped(hosts: seq<Host>): set<string> {
    set host | host in hosts && host.groupId.None? :: host.id
  }

  function NormalOrder(order: seq<string>, hosts: seq<Host>): seq<string> {
    var listed := WithMissing(Dedup(Within(order, HostIds(hosts))), hosts);
    [LOCAL_HOST_ID] + Outside(Outside(listed, Grouped(hosts)), {LOCAL_HOST_ID})
  }

  function Normalized(blank: string -> bool, d: Document): Document {
    var groups := FirstGroups(d.groups);
    var hosts := NormalHosts(blank, GroupIds(groups), WithLocal(FirstHosts(d.hosts)));
    Document(groups, NormalOrder(d.order, hosts), hosts)
  }

  // ---------------------------------------------------------------- what the list operations do

  lemma {:induction false} WithinIs(order: seq<string>, ids: set<string>)
    ensures forall x :: x in Within(order, ids) <==> x in order && x in ids
    ensures NoRepeats(order) ==> NoRepeats(Within(order, ids))
  {
    if order != [] {
      var before := order[..|order| - 1];
      WithinIs(before, ids);
      assert order == before + [order[|order| - 1]];
      assert NoRepeats(order) ==> order[|order| - 1] !in before;
    }
  }

  lemma {:induction false} WithinAll(order: seq<string>, ids: set<string>)
    requires forall x :: x in order ==> x in ids
    ensures Within(order, ids) == order
  {
    if order != [] {
      WithinAll(order[..|order| - 1], ids);
      assert order == order[..|order| - 1] + [order[|order| - 1]];
    }
  }

  lemma {:induction false} WithinSplits(order: seq<string>, more: seq<string>, ids: set<string>)
    ensures Within(order + more, ids) == Within(order, ids) + Within(more, ids)
  {
    if more == [] {
      assert order + more == order;
    } else {
      WithinSplits(order, more[..|more| - 1], ids);
      assert (order + more)[..|order + more| - 1] == order + more[..|more| - 1];
    }
  }

  /** Dropping the grouped and the built-in host is keeping the rest. */
  lemma {:induction false} OutsideIsWithin(order: seq<string>, grouped: set<string>, kept: set<string>)
    requires forall x :: x in order ==> (x in kept <==> x !in grouped && x != LOCAL_HOST_ID)
    ensures Outside(Outside(order, grouped), {LOCAL_HOST_ID}) == Within(order, kept)
  {
    if order != [] {
      var before, last := order[..|order| - 1], order[|order| - 1];
      OutsideIsWithin(before, grouped, kept);
      if last !in grouped {
        assert (Outside(before, grouped) + [last])[..|Outside(before, grouped)|] == Outside(before, grouped);
      }
    }
  }

  lemma {:induction false} DedupIs(order: seq<string>)
    ensures forall x :: x in Dedup(order) <==> x in order
    ensures NeighboursDiffer(Dedup(order))
    ensures order != [] ==> Dedup(order) != [] && Dedup(order)[|Dedup(order)| - 1] == order[|order| - 1]
  {
    if order != [] {
      var before, last := order[..|order| - 1], order[|order| - 1];
      DedupIs(before);
      assert order == before + [last];
      DedupNext(before, last);
    }
  }

  lemma DedupNext(order: seq<string>, last: string)
    requires forall x :: x in Dedup(order) <==> x in order
    requires NeighboursDiffer(Dedup(order))
    ensures forall x :: x in Dedup(order + [last]) <==> x in order + [last]
    ensures NeighboursDiffer(Dedup(order + [last]))
    ensures Dedup(order + [last]) != [] && Dedup(order + [last])[|Dedup(order + [last])| - 1] == last
  {
    hide Dedup;
    DedupStep(order, last);
    var rest := Dedup(order);
    DifferStep(rest, last);
    assert rest != [] ==> rest[|rest| - 1] in rest;
  }

  lemma {:induction false} DedupKeepsExactly(order: seq<string>)
    ensures Dedup(order) == order <==> NeighboursDiffer(order)
    ensures |Dedup(order)| <= |order|
  {
    DedupIs(order);
    if order != [] {
      var before, last := order[..|order| - 1], order[|order| - 1];
      DedupKeepsExactly(before);
      DedupIs(before);
      assert order == before + [last];
      if NeighboursDiffer(order) {
        assert NeighboursDiffer(before);
        assert before != [] ==> order[|before| - 1] != order[|before| - 1 + 1];
      }
    }
  }

  lemma DedupStep(order: seq<string>, last: string)
    ensures var rest := Dedup(order);
      Dedup(order + [last]) == if rest != [] && rest[|rest| - 1] == last then rest else rest + [last]
  {
    var all := order + [last];
    assert all[..|all| - 1] == order && all[|all| - 1] == last;
  }

  /** Ids that are all different from `first` do not feel it in front of them. */
  lemma {:induction false} DedupBehind(first: string, order: seq<string>)
    requires first !in order
    ensures Dedup([first] + order) == [first] + Dedup(order)
  {
    if order == [] {
      assert [first] + order == [first] == [] + [first];
      DedupStep([], first);
      assert [first] + [] == [first];
    } else {
      DedupBehind(first, order[..|order| - 1]);
      DedupBehindStep(first, order[..|order| - 1], order[|order| - 1]);
      assert order[..|order| - 1] + [order[|order| - 1]] == order;
    }
  }

  lemma DedupBehindStep(first: string, order: seq<string>, last: string)
    requires first != last && Dedup([first] + order) == [first] + Dedup(order)
    ensures Dedup([first] + (order + [last])) == [first] + Dedup(order + [last])
  {
    DedupStep(order, last);
    DedupStep([first] + order, last);
    hide Dedup;
    assert [first] + order + [last] == [first] + (order + [last]);
  }

  /** What `WithMissing` appends: each ungrouped host that is missing, once. */
  lemma {:induction false} MissingIs(order: seq<string>, hosts: seq<Host>) returns (more: seq<string>)
    ensures WithMissing(order, hosts) == order + more && NoRepeats(more)
    ensures forall x :: x in more <==> x in Ungrouped(hosts) && x !in order
    ensures (forall x :: x in Ungrouped(hosts) ==> x in order) ==> more == []
  {
    if hosts == [] {
      more := [];
    } else {
      var before, last := hosts[..|hosts| - 1], hosts[|hosts| - 1];
      more := MissingIs(order, before);
      assert hosts == before + [last];
      assert Ungrouped(hosts) == Ungrouped(before) + if last.groupId.None? then {last.id} else {};
      if last.groupId.None? && last.id !in order + more {
        assert order + more + [last.id] == order + (more + [last.id]);
        more := more + [last.id];
      }
    }
  }

  lemma NothingMissing(order: seq<string>, hosts: seq<Host>)
    requires forall x :: x in Ungrouped(hosts) ==> x in order
    ensures WithMissing(order, hosts) == order
  {
    var more := MissingIs(order, hosts);
  }

  // ---------------------------------------------------------------- the order, once and again

  predicate AreUnique(hosts: seq<Host>) {
    forall i, j :: 0 <= i < j < |hosts| ==> hosts[i].id != hosts[j].id
  }

  /** The hosts the order list is for, but for the built-in one. */
  function Kept(hosts: seq<Host>): set<string> {
    Ungrouped(hosts) - {LOCAL_HOST_ID}
  }

  lemma UngroupedIsNotGrouped(hosts: seq<Host>)
    requires AreUnique(hosts)
    ensures HostIds(hosts) == Grouped(hosts) + Ungrouped(hosts) && Grouped(hosts) !! Ungrouped(hosts)
  {
    forall x | x in HostIds(hosts)
      ensures x in Grouped(hosts) + Ungrouped(hosts)
    {
      var host :| host in hosts && host.id == x;
      assert host.groupId.Some? || host.groupId.None?;
    }
    forall x | x in Grouped(hosts)
      ensures x !in Ungrouped(hosts)
    {
      var i :| 0 <= i < |hosts| && hosts[i].groupId.Some? && hosts[i].id == x;
      assert forall j :: 0 <= j < |hosts| && hosts[j].id == x ==> j == i;
    }
  }

  /** What of the listed order survives the first pass. */
  function Survivors(order: seq<string>, hosts: seq<Host>): seq<string> {
    Within(Dedup(Within(order, HostIds(hosts))), Kept(hosts))
  }

  /** The ids stand in the order of the hosts they are of. */
  ghost predicate FollowHosts(ids: seq<string>, hosts: seq<Host>) {
    forall i, j, p, q :: 0 <= i < j < |ids| && 0 <= p < |hosts| && 0 <= q < |hosts| ==>
      hosts[p].id == ids[i] && hosts[q].id == ids[j] ==> p < q
  }

  lemma FollowOn(ids: seq<string>, before: seq<Host>, last: Host)
    requires FollowHosts(ids, before) && forall i :: 0 <= i < |ids| ==> ids[i] != last.id
    requires forall p :: 0 <= p < |before| ==> before[p].id != last.id
    ensures FollowHosts(ids, before + [last]) && FollowHosts(ids + [last.id], before + [last])
  {
    var hosts, more := before + [last], ids + [last.id];
    forall i, j, p, q | 0 <= i < j < |more| && 0 <= p < |hosts| && 0 <= q < |hosts| &&
                        hosts[p].id == more[i] && hosts[q].id == more[j]
      ensures p < q
    {
      if j < |ids| {
        assert before[p].id == ids[i] && before[q].id == ids[j];
      }
    }
    assert forall i :: 0 <= i < |ids| ==> more[i] == ids[i];
  }

  /** What is appended for missing hosts stands in the order of the hosts. */
  lemma {:induction false} MissingFollow(order: seq<string>, hosts: seq<Host>, more: seq<string>)
    requires AreUnique(hosts) && WithMissing(order, hosts) == order + more
    ensures FollowHosts(more, hosts)
    decreases |hosts|
  {
    hide FollowHosts, AreUnique, Ungrouped, HostIds;
    if hosts == [] {
      assert (order + more)[|order|..] == more;
      NothingFollows();
    } else {
      var before, last := hosts[..|hosts| - 1], hosts[|hosts| - 1];
      assert hosts == before + [last];
      UniqueFront(before, last);
      UngroupedAreHosts(before);
      var front := MissingIs(order, before);
      MissingFollow(order, before, front);
      assert forall i :: 0 <= i < |front| ==> front[i] in front;
      FollowOn(front, before, last);
      assert (order + more)[|order|..] == more && (order + front)[|order|..] == front;
      assert (order + front + [last.id])[|order|..] == front + [last.id];
    }
  }

  lemma NothingFollows()
    ensures FollowHosts([], [])
  {
  }

  lemma UniqueFront(before: seq<Host>, last: Host)
    requires AreUnique(before + [last])
    ensures AreUnique(before) && last.id !in HostIds(before)
    ensures forall i :: 0 <= i < |before| ==> before[i].id != last.id
  {
    var all := before + [last];
    assert forall i :: 0 <= i < |before| ==> all[i] == before[i] && all[i].id != all[|before|].id;
  }

  lemma UngroupedAreHosts(hosts: seq<Host>)
    ensures Ungrouped(hosts) <= HostIds(hosts)
  {
  }

  lemma {:induction false} WithinFollows(ids: seq<string>, kept: set<string>, hosts: seq<Host>)
    requires FollowHosts(ids, hosts)
    ensures FollowHosts(Within(ids, kept), hosts)
  {
    if ids != [] {
      var before, last := ids[..|ids| - 1], ids[|ids| - 1];
      WithinFollows(before, kept, hosts);
      WithinIs(before, kept);
      hide Within;
      forall i | 0 <= i < |Within(before, kept)|
        ensures exists k :: 0 <= k < |before| && ids[k] == Within(before, kept)[i]
      {
        assert Within(before, kept)[i] in before;
        var k :| 0 <= k < |before| && before[k] == Within(before, kept)[i];
        assert ids[k] == before[k];
      }
    }
  }

  lemma FirstPass(order: seq<string>, hosts: seq<Host>) returns (more: seq<string>)
    requires AreUnique(hosts)
    ensures NormalOrder(order, hosts) == [LOCAL_HOST_ID] + (Survivors(order, hosts) + more)
    ensures NoRepeats(more) && forall x :: x in more <==> x in Kept(hosts) && x !in Survivors(order, hosts)
    ensures forall x :: x in Survivors(order, hosts) ==> x in Kept(hosts)
    ensures FollowHosts(more, hosts)
  {
    hide FollowHosts;
    var ids, kept := HostIds(hosts), Kept(hosts);
    var listed := Dedup(Within(order, ids));
    var missing := MissingIs(listed, hosts);
    MissingFollow(listed, hosts, missing);
    WithinFollows(missing, kept, hosts);
    UngroupedIsNotGrouped(hosts);
    WithinIs(order, ids);
    DedupIs(Within(order, ids));
    OutsideIsWithin(listed + missing, Grouped(hosts), kept);
    WithinSplits(listed, missing, kept);
    more := Within(missing, kept);
    WithinIs(listed, kept);
    WithinIs(missing, kept);
  }

  lemma FurtherListed(rest: seq<string>, hosts: seq<Host>)
    requires AreUnique(hosts) && LOCAL_HOST_ID in Ungrouped(hosts)
    requires forall x :: x in rest <==> x in Kept(hosts)
    ensures var order := [LOCAL_HOST_ID] + rest;
      WithMissing(Dedup(Within(order, HostIds(hosts))), hosts) == [LOCAL_HOST_ID] + Dedup(rest)
  {
    var order, ids := [LOCAL_HOST_ID] + rest, HostIds(hosts);
    UngroupedIsNotGrouped(hosts);
    assert Ungrouped(hosts) <= ids;
    hide HostIds, Grouped, Ungrouped;
    WithinAll(order, ids);
    DedupBehind(LOCAL_HOST_ID, rest);
    DedupIs(rest);
    var listed := [LOCAL_HOST_ID] + Dedup(rest);
    forall x | x in Ungrouped(hosts)
      ensures x in listed
    {
      assert x == LOCAL_HOST_ID || x in Dedup(rest);
    }
    NothingMissing(listed, hosts);
  }

  lemma OutsideKeepsRest(rest: seq<string>, hosts: seq<Host>)
    requires AreUnique(hosts) && forall x :: x in rest ==> x in Kept(hosts)
    ensures Outside(Outside([LOCAL_HOST_ID] + rest, Grouped(hosts)), {LOCAL_HOST_ID}) == rest
  {
    var kept, listed := Kept(hosts), [LOCAL_HOST_ID] + rest;
    UngroupedIsNotGrouped(hosts);
    assert LOCAL_HOST_ID !in kept;
    forall x | x in listed
      ensures x in kept <==> x !in Grouped(hosts) && x != LOCAL_HOST_ID
    {
      assert x == LOCAL_HOST_ID || x in rest;
    }
    hide HostIds, Grouped, Ungrouped, Kept;
    OutsideIsWithin(listed, Grouped(hosts), kept);
    WithinSplits([LOCAL_HOST_ID], rest, kept);
    WithinAll(rest, kept);
    assert Within([LOCAL_HOST_ID], kept) == [];
  }

  /** A further pass over a list that names exactly the hosts it is for only merges neighbours. */
  lemma FurtherPass(rest: seq<string>, hosts: seq<Host>)
    requires AreUnique(hosts) && LOCAL_HOST_ID in Ungrouped(hosts)
    requires forall x :: x in rest <==> x in Kept(hosts)
    ensures NormalOrder([LOCAL_HOST_ID] + rest, hosts) == [LOCAL_HOST_ID] + Dedup(rest)
  {
    hide HostIds, Grouped, Ungrouped, Kept, Dedup, NeighboursDiffer, WithMissing, Within, Outside, AreUnique;
    FurtherListed(rest, hosts);
    DedupIs(rest);
    OutsideKeepsRest(Dedup(rest), hosts);
  }

  // ---------------------------------------------------------------- when the order settles

  /** An ungrouped host that is listed again with only others' entries in between, some of which
      name a host that does not stay in the list. */
  predicate ComesBack(order: seq<string>, known: set<string>, kept: set<string>) {
    exists i, j :: 0 <= i < j < |order| && ComesBackAt(order, known, kept, i, j)
  }

  predicate ComesBackAt(order: seq<string>, known: set<string>, kept: set<string>, i: nat, j: nat)
    requires i < j < |order|
  {
    && order[i] == order[j] && order[j] in kept
    && (forall k :: i < k < j ==> order[k] !in kept)
    && (exists k :: i < k < j && order[k] in known)
  }

  /** Every ungrouped host's entries stand together, but for entries that name no host. */
  predicate StandTogether(order: seq<string>, known: set<string>, kept: set<string>) {
    forall i, k, j :: 0 <= i < k < j < |order| && order[i] == order[j] && order[j] in kept && order[k] in known ==>
      order[k] == order[i]
  }

  /** The last entry in `ids`, if there is one. */
  lemma {:induction false} LastWithin(order: seq<string>, ids: set<string>) returns (at: int)
    ensures Within(order, ids) == [] ==> at == -1
    ensures Within(order, ids) != [] ==> 0 <= at < |order| && order[at] == Within(order, ids)[|Within(order, ids)| - 1]
    ensures forall k :: at < k < |order| ==> order[k] !in ids
    ensures at >= 0 ==> order[at] in ids
  {
    if order == [] {
      at := -1;
    } else if order[|order| - 1] in ids {
      at := |order| - 1;
    } else {
      at := LastWithin(order[..|order| - 1], ids);
      assert forall k :: 0 <= k < |order| - 1 ==> order[..|order| - 1][k] == order[k];
    }
  }

  /** The survivors end as the list of the hosts that stay ends, and name the same hosts. */
  ghost predicate EndAlike(survivors: seq<string>, staying: seq<string>) {
    && LastOf(survivors) == LastOf(staying)
    && forall x :: x in survivors <==> x in staying
  }

  lemma {:induction false} LastSurvivor(order: seq<string>, known: set<string>, kept: set<string>)
    requires kept <= known
    ensures EndAlike(Within(Dedup(Within(order, known)), kept), Within(order, kept))
  {
    if order != [] {
      LastSurvivor(order[..|order| - 1], known, kept);
      NextSurvivor(order, known, kept);
    }
  }

  lemma NextSurvivor(order: seq<string>, known: set<string>, kept: set<string>)
    requires kept <= known && order != []
    requires var before := order[..|order| - 1];
      EndAlike(Within(Dedup(Within(before, known)), kept), Within(before, kept))
    ensures EndAlike(Within(Dedup(Within(order, known)), kept), Within(order, kept))
  {
    var before, last := order[..|order| - 1], order[|order| - 1];
    assert Within(order, kept) == if last in kept then Within(before, kept) + [last] else Within(before, kept);
    hide Within, Dedup;
    SurvivorStep(order, known, kept);
    if LastOf(Within(before, known)) == Some(last) && last in kept {
      LastKnownStays(before, known, kept);
    }
  }

  function LastOf(ids: seq<string>): Option<string> {
    if ids == [] then None else Some(ids[|ids| - 1])
  }

  /** One more entry: it survives when it names a host that stays and the entry before it, of those
      that name a host, is another's. */
  lemma SurvivorStep(order: seq<string>, known: set<string>, kept: set<string>)
    requires order != [] && kept <= known
    ensures var before, last := order[..|order| - 1], order[|order| - 1];
      Within(Dedup(Within(order, known)), kept)
        == if last in kept && LastOf(Within(before, known)) != Some(last)
           then Within(Dedup(Within(before, known)), kept) + [last] else Within(Dedup(Within(before, known)), kept)
  {
    var before, last := order[..|order| - 1], order[|order| - 1];
    var listed := Within(before, known);
    DedupIs(listed);
    if last in known {
      DedupStep(listed, last);
      assert (Dedup(listed) + [last])[..|Dedup(listed)|] == Dedup(listed);
    }
  }

  /** The last entry that names a host, if that host stays, is the last of those that stay. */
  lemma LastKnownStays(order: seq<string>, known: set<string>, kept: set<string>)
    requires kept <= known && LastOf(Within(order, known)).Some? && LastOf(Within(order, known)).value in kept
    ensures LastOf(Within(order, kept)) == LastOf(Within(order, known))
  {
    var at := LastWithin(order, known);
    var keptAt := LastWithin(order, kept);
    assert order[at] in kept && at == keptAt;
  }

  lemma DifferStep(ids: seq<string>, last: string)
    ensures NeighboursDiffer(ids + [last]) <==> NeighboursDiffer(ids) && (ids != [] ==> ids[|ids| - 1] != last)
  {
    var all := ids + [last];
    if NeighboursDiffer(all) {
      forall i | 0 <= i < |ids| - 1
        ensures ids[i] != ids[i + 1]
      {
        assert all[i] != all[i + 1];
      }
      assert ids != [] ==> all[|ids| - 1] != all[|ids| - 1 + 1];
    }
  }

  predicate ComesBackLast(order: seq<string>, known: set<string>, kept: set<string>) {
    exists i, j :: 0 <= i < j == |order| - 1 && ComesBackAt(order, known, kept, i, j)
  }

  lemma ComesBackStep(order: seq<string>, known: set<string>, kept: set<string>)
    requires order != []
    ensures ComesBack(order, known, kept)
         == (ComesBack(order[..|order| - 1], known, kept) || ComesBackLast(order, known, kept))
  {
    var before := order[..|order| - 1];
    forall i, j | 0 <= i < j < |before|
      ensures ComesBackAt(before, known, kept, i, j) <==> ComesBackAt(order, known, kept, i, j)
    {
      assert forall k :: 0 <= k < |before| ==> before[k] == order[k];
    }
  }

  /** The last entry comes back when it is the last of those that stay, but not of those known. */
  lemma ComesBackLastMeans(order: seq<string>, known: set<string>, kept: set<string>)
    requires order != [] && kept <= known
    ensures Within(order[..|order| - 1], kept) != [] ==> Within(order[..|order| - 1], known) != []
    ensures var before, last := order[..|order| - 1], order[|order| - 1];
      var listed, staying := Within(before, known), Within(before, kept);
      ComesBackLast(order, known, kept)
        == (last in kept && staying != [] && staying[|staying| - 1] == last && listed[|listed| - 1] != last)
  {
    var before, last := order[..|order| - 1], order[|order| - 1];
    var at := LastWithin(before, known);
    var keptAt := LastWithin(before, kept);
    hide Within;
    assert forall k :: 0 <= k < |before| ==> before[k] == order[k];
    assert keptAt >= 0 ==> order[keptAt] in known && keptAt <= at;
    if keptAt >= 0 && last in kept && order[keptAt] == last && order[at] != last {
      assert ComesBackAt(order, known, kept, keptAt, |order| - 1);
    }
    if ComesBackLast(order, known, kept) {
      var i, j :| 0 <= i < j == |order| - 1 && ComesBackAt(order, known, kept, i, j);
      assert i == keptAt;
    }
  }

  /** Neighbours among the survivors are equal exactly when a host comes back. */
  lemma {:induction false} NeighboursComeBack(order: seq<string>, known: set<string>, kept: set<string>)
    requires kept <= known
    ensures NeighboursDiffer(Within(Dedup(Within(order, known)), kept)) <==> !ComesBack(order, known, kept)
  {
    if order != [] {
      NeighboursComeBack(order[..|order| - 1], known, kept);
      NeighboursComeBackStep(order, known, kept);
    }
  }

  lemma NeighboursComeBackStep(order: seq<string>, known: set<string>, kept: set<string>)
    requires kept <= known && order != []
    requires var before := order[..|order| - 1];
      NeighboursDiffer(Within(Dedup(Within(before, known)), kept)) <==> !ComesBack(before, known, kept)
    ensures NeighboursDiffer(Within(Dedup(Within(order, known)), kept)) <==> !ComesBack(order, known, kept)
  {
    hide Within, Dedup, NeighboursDiffer, ComesBack, ComesBackLast;
    var before, last := order[..|order| - 1], order[|order| - 1];
    DifferStep(Within(Dedup(Within(before, known)), kept), last);
    SurvivorStep(order, known, kept);
    LastSurvivor(before, known, kept);
    ComesBackStep(order, known, kept);
    ComesBackLastMeans(order, known, kept);
  }

  // ---------------------------------------------------------------- when nothing is listed twice

  /** The survivors repeat nothing exactly when every host's entries stand together. */
  lemma {:induction false} SurvivorsStandTogether(order: seq<string>, known: set<string>, kept: set<string>)
    requires kept <= known
    ensures NoRepeats(Within(Dedup(Within(order, known)), kept)) <==> StandTogether(order, known, kept)
  {
    if order != [] {
      SurvivorsStandTogether(order[..|order| - 1], known, kept);
      StandTogetherStep(order, known, kept);
    }
  }

  lemma NoRepeatsStep(ids: seq<string>, last: string)
    ensures NoRepeats(ids + [last]) <==> NoRepeats(ids) && last !in ids
  {
    var all := ids + [last];
    if NoRepeats(all) {
      forall i, j | 0 <= i < j < |ids|
        ensures ids[i] != ids[j]
      {
        assert all[i] != all[j];
      }
      forall i | 0 <= i < |ids|
        ensures ids[i] != last
      {
        assert all[i] != all[|ids|];
      }
    }
  }

  /** The last entry stands with the earlier ones of its host. */
  predicate LastStandsTogether(order: seq<string>, known: set<string>, kept: set<string>) {
    forall i, k, j :: 0 <= i < k < j == |order| - 1 && order[i] == order[j] && order[j] in kept && order[k] in known ==>
      order[k] == order[i]
  }

  /** ... when the entry `at`, the last before it that names a host, is of the same host. */
  lemma LastStandsAt(order: seq<string>, known: set<string>, kept: set<string>, i: nat, at: nat)
    requires i <= at < |order| - 1 && order[i] == order[|order| - 1] && order[i] in kept && order[at] in known
    requires forall k :: at < k < |order| - 1 ==> order[k] !in known
    requires StandTogether(order[..|order| - 1], known, kept)
    ensures LastStandsTogether(order, known, kept) <==> order[at] == order[|order| - 1]
  {
    var before, last := order[..|order| - 1], order[|order| - 1];
    if order[at] == last {
      forall a, k, j | 0 <= a < k < j == |order| - 1 && order[a] == order[j] && order[j] in kept && order[k] in known
        ensures order[k] == order[a]
      {
        assert k < at ==> before[a] == before[at] && before[at] in kept && before[k] in known;
      }
    } else {
      assert i < at < |order| - 1 == |order| - 1;
    }
  }

  lemma NothingToStandBy(order: seq<string>, known: set<string>, kept: set<string>)
    requires order != [] && !(order[|order| - 1] in kept && order[|order| - 1] in order[..|order| - 1])
    ensures LastStandsTogether(order, known, kept)
  {
    assert forall i :: 0 <= i < |order| - 1 ==> order[i] == order[..|order| - 1][i];
  }

  lemma LastStandsMeans(order: seq<string>, known: set<string>, kept: set<string>)
    requires order != [] && kept <= known
    requires StandTogether(order[..|order| - 1], known, kept)
    ensures var before, last := order[..|order| - 1], order[|order| - 1];
      var listed := Within(before, known);
      LastStandsTogether(order, known, kept)
        == (last in kept && last in Within(before, kept) ==> listed != [] && listed[|listed| - 1] == last)
  {
    var before, last := order[..|order| - 1], order[|order| - 1];
    var at := LastWithin(before, known);
    WithinIs(before, kept);
    hide Within, NoRepeats, StandTogether, LastStandsTogether;
    if last in kept && last in before {
      var i :| 0 <= i < |before| && before[i] == last;
      assert order[i] == last && i <= at;
      LastStandsAt(order, known, kept, i, at);
    } else {
      NothingToStandBy(order, known, kept);
    }
  }

  lemma StandTogetherSplits(order: seq<string>, known: set<string>, kept: set<string>)
    requires order != []
    ensures StandTogether(order, known, kept)
         == (StandTogether(order[..|order| - 1], known, kept) && LastStandsTogether(order, known, kept))
  {
    var before := order[..|order| - 1];
    assert forall k :: 0 <= k < |before| ==> before[k] == order[k];
  }

  lemma StandTogetherStep(order: seq<string>, known: set<string>, kept: set<string>)
    requires kept <= known && order != []
    requires var before := order[..|order| - 1];
      NoRepeats(Within(Dedup(Within(before, known)), kept)) <==> StandTogether(before, known, kept)
    ensures NoRepeats(Within(Dedup(Within(order, known)), kept)) <==> StandTogether(order, known, kept)
  {
    hide Within, Dedup, NoRepeats, StandTogether, LastStandsTogether;
    var before, last := order[..|order| - 1], order[|order| - 1];
    NoRepeatsStep(Within(Dedup(Within(before, known)), kept), last);
    SurvivorStep(order, known, kept);
    LastSurvivor(before, known, kept);
    StandTogetherSplits(order, known, kept);
    if StandTogether(before, known, kept) {
      LastStandsMeans(order, known, kept);
    }
  }

  // ---------------------------------------------------------------- the whole document

  predicate AreUniqueGroups(groups: seq<Group>) {
    forall i, j :: 0 <= i < j < |groups| ==> groups[i].id != groups[j].id
  }

  predicate HaveIds(hosts: seq<Host>) {
    forall i :: 0 <= i < |hosts| ==> hosts[i].id != ""
  }

  predicate HaveGroupIds(groups: seq<Group>) {
    forall i :: 0 <= i < |groups| ==> groups[i].id != ""
  }

  /** The host stands in a group that exists or in none, and is the plain local terminal if it is
      the built-in one. */
  predicate IsWelcome(groups: set<string>, host: Host) {
    && (host.groupId.Some? ==> host.groupId.value in groups)
    && (host.id == LOCAL_HOST_ID ==> host.groupId.None? && host.connection.kind.Local?)
  }

  predicate AreWelcome(groups: set<string>, hosts: seq<Host>) {
    forall i :: 0 <= i < |hosts| ==> IsWelcome(groups, hosts[i])
  }

  /** The order starts with the built-in host and lists each ungrouped host once. */
  predicate IsOrdered(order: seq<string>, hosts: seq<Host>) {
    && order != [] && order[0] == LOCAL_HOST_ID && NoRepeats(order)
    && (forall x :: x in order ==> x in Ungrouped(hosts))
    && (forall x :: x in Ungrouped(hosts) ==> x in order)
  }

  predicate IsConsistent(d: Document) {
    && AreUnique(d.hosts) && AreUniqueGroups(d.groups)
    && AreWelcome(GroupIds(d.groups), d.hosts)
    && LOCAL_HOST_ID in HostIds(d.hosts)
    && IsOrdered(d.order, d.hosts)
  }

  lemma UniqueStep(hosts: seq<Host>, last: Host)
    ensures AreUnique(hosts + [last]) <==> AreUnique(hosts) && last.id !in HostIds(hosts)
    ensures HaveIds(hosts + [last]) <==> HaveIds(hosts) && last.id != ""
  {
    var all := hosts + [last];
    assert forall i :: 0 <= i < |hosts| ==> all[i] == hosts[i];
    assert all[|hosts|] == last;
  }

  lemma {:induction false} FirstHostsAre(hosts: seq<Host>)
    ensures AreUnique(FirstHosts(hosts)) && HaveIds(FirstHosts(hosts))
    ensures AreUnique(hosts) && HaveIds(hosts) ==> FirstHosts(hosts) == hosts
  {
    if hosts != [] {
      FirstHostsAre(hosts[..|hosts| - 1]);
      FirstHostsStep(hosts[..|hosts| - 1], hosts[|hosts| - 1]);
      assert hosts == hosts[..|hosts| - 1] + [hosts[|hosts| - 1]];
    }
  }

  lemma FirstHostsStep(hosts: seq<Host>, last: Host)
    requires AreUnique(FirstHosts(hosts)) && HaveIds(FirstHosts(hosts))
    requires AreUnique(hosts) && HaveIds(hosts) ==> FirstHosts(hosts) == hosts
    ensures var all := hosts + [last];
      && AreUnique(FirstHosts(all)) && HaveIds(FirstHosts(all))
      && (AreUnique(all) && HaveIds(all) ==> FirstHosts(all) == all)
  {
    hide AreUnique, HaveIds, HostIds;
    assert (hosts + [last])[..|hosts|] == hosts;
    UniqueStep(FirstHosts(hosts), last);
    UniqueStep(hosts, last);
  }

  lemma UniqueGroupsStep(groups: seq<Group>, last: Group)
    ensures AreUniqueGroups(groups + [last]) <==> AreUniqueGroups(groups) && last.id !in GroupIds(groups)
    ensures HaveGroupIds(groups + [last]) <==> HaveGroupIds(groups) && last.id != ""
  {
    var all := groups + [last];
    assert forall i :: 0 <= i < |groups| ==> all[i] == groups[i];
    assert all[|groups|] == last;
  }

  lemma {:induction false} FirstGroupsAre(groups: seq<Group>)
    ensures AreUniqueGroups(FirstGroups(groups)) && HaveGroupIds(FirstGroups(groups))
    ensures AreUniqueGroups(groups) && HaveGroupIds(groups) ==> FirstGroups(groups) == groups
  {
    if groups != [] {
      FirstGroupsAre(groups[..|groups| - 1]);
      FirstGroupsStep(groups[..|groups| - 1], groups[|groups| - 1]);
      assert groups == groups[..|groups| - 1] + [groups[|groups| - 1]];
    }
  }

  lemma FirstGroupsStep(groups: seq<Group>, last: Group)
    requires AreUniqueGroups(FirstGroups(groups)) && HaveGroupIds(FirstGroups(groups))
    requires AreUniqueGroups(groups) && HaveGroupIds(groups) ==> FirstGroups(groups) == groups
    ensures var all := groups + [last];
      && AreUniqueGroups(FirstGroups(all)) && HaveGroupIds(FirstGroups(all))
      && (AreUniqueGroups(all) && HaveGroupIds(all) ==> FirstGroups(all) == all)
  {
    hide AreUniqueGroups, HaveGroupIds, GroupIds;
    assert (groups + [last])[..|groups|] == groups;
    UniqueGroupsStep(FirstGroups(groups), last);
    UniqueGroupsStep(groups, last);
  }

  lemma {:induction false} TagsSettle(blank: string -> bool, tags: seq<string>)
    ensures PlainTags(blank, PlainTags(blank, tags)) == PlainTags(blank, tags)
  {
    if tags != [] {
      TagsSettle(blank, tags[1..]);
    }
  }

  lemma HostSettles(blank: string -> bool, groups: set<string>, host: Host)
    ensures var next := NormalHost(blank, groups, host);
      next.id == host.id && IsWelcome(groups, next) && NormalHost(blank, groups, next) == next
  {
    TagsSettle(blank, host.tags);
    ConnectionSettles(host.connection);
    ConnectionSettles(host.connection.(kind := Local));
    KindStays(host.connection);
    KindStays(host.connection.(kind := Local));
    hide NormalConnection, PlainTags;
  }

  lemma {:induction false} PlainTagsAre(blank: string -> bool, tags: seq<string>)
    ensures forall tag :: tag in PlainTags(blank, tags) <==> tag in tags && !blank(tag)
    ensures (forall i :: 0 <= i < |tags| ==> !blank(tags[i])) ==> PlainTags(blank, tags) == tags
  {
    if tags != [] {
      PlainTagsAre(blank, tags[1..]);
      assert tags == [tags[0]] + tags[1..];
    }
  }

  lemma PlainTagsByHead(blank: string -> bool, first: string, rest: seq<string>)
    ensures PlainTags(blank, []) == []
    ensures PlainTags(blank, [first] + rest) == (if blank(first) then [] else [first]) + PlainTags(blank, rest)
  {
    assert ([first] + rest)[1..] == rest;
  }

  /** The tags that stay keep their order. */
  lemma {:induction false} PlainTagsSplit(blank: string -> bool, front: seq<string>, back: seq<string>)
    ensures PlainTags(blank, front + back) == PlainTags(blank, front) + PlainTags(blank, back)
  {
    hide PlainTags;
    if front == [] {
      PlainTagsByHead(blank, "", []);
      assert front + back == back;
    } else {
      var first, rest := front[0], front[1..];
      PlainTagsSplit(blank, rest, back);
      PlainTagsByHead(blank, first, rest);
      PlainTagsByHead(blank, first, rest + back);
      assert front == [first] + rest && front + back == [first] + (rest + back);
    }
  }

  /** What is left of a host: its id and name; its group if that exists, but never for the built-in one; its tags
      but for blank ones; and its connection, put in shape, which is a local one for the built-in host. */
  lemma NormalHostIs(blank: string -> bool, groups: set<string>, host: Host)
    ensures var n := NormalHost(blank, groups, host);
      && n.id == host.id && n.name == host.name
      && n.groupId == (if host.id != "local" && host.groupId.Some? && host.groupId.value in groups
                       then host.groupId else None)
      && (forall tag :: tag in n.tags <==> tag in host.tags && !blank(tag))
      && (host.id != "local" ==> n.connection == NormalConnection(host.connection))
      && (host.id == "local" ==> n.connection == NormalConnection(host.connection.(kind := Local)))
  {
    PlainTagsAre(blank, host.tags);
    hide PlainTags, NormalConnection;
  }

  lemma KindStays(c: Connection)
    ensures NormalConnection(c).kind == c.kind
  {
  }

  lemma HostsSettle(blank: string -> bool, groups: set<string>, hosts: seq<Host>)
    requires AreUnique(hosts) && HaveIds(hosts) && LOCAL_HOST_ID in HostIds(hosts)
    ensures var next := NormalHosts(blank, groups, hosts);
      && AreUnique(next) && HaveIds(next) && LOCAL_HOST_ID in HostIds(next) && AreWelcome(groups, next)
      && NormalHosts(blank, groups, next) == next
  {
    var next := NormalHosts(blank, groups, hosts);
    assert |next| == |hosts| && forall i :: 0 <= i < |hosts| ==> next[i] == NormalHost(blank, groups, hosts[i]);
    hide NormalHosts, NormalHost, AreUnique, HaveIds, HostIds, IsWelcome;
    forall i | 0 <= i < |hosts|
      ensures next[i].id == hosts[i].id && IsWelcome(groups, next[i]) && NormalHost(blank, groups, next[i]) == next[i]
    {
      HostSettles(blank, groups, hosts[i]);
    }
    UniqueById(hosts, next);
    NamedById(hosts, next);
    NothingToSettle(blank, groups, next);
  }

  lemma NamedById(hosts: seq<Host>, next: seq<Host>)
    requires HaveIds(hosts) && LOCAL_HOST_ID in HostIds(hosts)
    requires |next| == |hosts| && forall j :: 0 <= j < |hosts| ==> next[j].id == hosts[j].id
    ensures HaveIds(next) && LOCAL_HOST_ID in HostIds(next)
  {
    var i :| 0 <= i < |hosts| && hosts[i].id == LOCAL_HOST_ID;
    assert next[i] in next;
  }

  lemma NothingToSettle(blank: string -> bool, groups: set<string>, hosts: seq<Host>)
    requires forall i :: 0 <= i < |hosts| ==> NormalHost(blank, groups, hosts[i]) == hosts[i]
    ensures NormalHosts(blank, groups, hosts) == hosts
  {
    hide NormalHost;
  }

  lemma LocalJoins(hosts: seq<Host>)
    requires AreUnique(hosts) && HaveIds(hosts)
    ensures var next := WithLocal(hosts);
      AreUnique(next) && HaveIds(next) && LOCAL_HOST_ID in HostIds(next)
  {
    var next := WithLocal(hosts);
    if LOCAL_HOST_ID !in HostIds(hosts) {
      assert next[0].id == LOCAL_HOST_ID && LOCAL_HOST in next;
      assert forall i :: 0 <= i < |hosts| ==> hosts[i].id in HostIds(hosts);
    }
  }

  lemma LocalIsUngrouped(groups: set<string>, hosts: seq<Host>)
    requires AreWelcome(groups, hosts) && LOCAL_HOST_ID in HostIds(hosts)
    ensures LOCAL_HOST_ID in Ungrouped(hosts)
  {
    var i :| 0 <= i < |hosts| && hosts[i].id == LOCAL_HOST_ID;
    assert IsWelcome(groups, hosts[i]) && hosts[i] in hosts;
  }

  /** What one pass leaves: everything but the order is settled. */
  lemma OnePass(blank: string -> bool, d: Document) returns (more: seq<string>)
    ensures var next := Normalized(blank, d);
      && AreUnique(next.hosts) && AreUniqueGroups(next.groups)
      && AreWelcome(GroupIds(next.groups), next.hosts) && LOCAL_HOST_ID in Ungrouped(next.hosts)
      && LOCAL_HOST_ID in HostIds(next.hosts)
      && Normalized(blank, next) == next.(order := NormalOrder(next.order, next.hosts))
      && next.order == [LOCAL_HOST_ID] + (Survivors(d.order, next.hosts) + more)
      && NoRepeats(more) && FollowHosts(more, next.hosts)
      && (forall x :: x in more <==> x in Kept(next.hosts) && x !in Survivors(d.order, next.hosts))
      && (forall x :: x in Survivors(d.order, next.hosts) ==> x in Kept(next.hosts))
  {
    var next := Normalized(blank, d);
    hide FollowHosts, FirstHosts, FirstGroups, NormalHosts, WithLocal, NormalOrder, Survivors, Kept, Ungrouped,
      GroupIds, HostIds;
    FirstGroupsAre(d.groups);
    FirstGroupsAre(next.groups);
    FirstHostsAre(d.hosts);
    LocalJoins(FirstHosts(d.hosts));
    HostsSettle(blank, GroupIds(next.groups), WithLocal(FirstHosts(d.hosts)));
    FirstHostsAre(next.hosts);
    LocalStays(next.hosts);
    LocalIsUngrouped(GroupIds(next.groups), next.hosts);
    more := FirstPass(d.order, next.hosts);
  }

  lemma LocalStays(hosts: seq<Host>)
    requires LOCAL_HOST_ID in HostIds(hosts)
    ensures WithLocal(hosts) == hosts
  {
  }

  lemma {:induction false} DifferAppends(ids: seq<string>, more: seq<string>)
    requires NoRepeats(more) && forall x :: x in more ==> x !in ids
    ensures NeighboursDiffer(ids + more) <==> NeighboursDiffer(ids)
    ensures NoRepeats(ids + more) <==> NoRepeats(ids)
  {
    var all := ids + more;
    if NeighboursDiffer(ids) {
      forall i | 0 <= i < |all| - 1
        ensures all[i] != all[i + 1]
      {
        if i >= |ids| {
          assert more[i - |ids|] != more[i + 1 - |ids|];
        } else if i == |ids| - 1 {
          assert all[i + 1] in more;
        } else {
          assert ids[i] != ids[i + 1];
        }
      }
    }
    if NeighboursDiffer(all) {
      forall i | 0 <= i < |ids| - 1
        ensures ids[i] != ids[i + 1]
      {
        assert all[i] != all[i + 1];
      }
    }
    RepeatsAppend(ids, more);
  }

  lemma RepeatsAppend(ids: seq<string>, more: seq<string>)
    requires NoRepeats(more) && forall x :: x in more ==> x !in ids
    ensures NoRepeats(ids + more) <==> NoRepeats(ids)
  {
    var all := ids + more;
    if NoRepeats(all) {
      forall i, j | 0 <= i < j < |ids|
        ensures ids[i] != ids[j]
      {
        assert all[i] != all[j];
      }
    }
    if NoRepeats(ids) {
      forall i, j | 0 <= i < j < |all|
        ensures all[i] != all[j]
      {
        if i >= |ids| {
          assert more[i - |ids|] != more[j - |ids|];
        } else if j >= |ids| {
          assert all[i] in ids && all[j] in more;
        }
      }
    }
  }

  // ---------------------------------------------------------------- what a pass will know, from what is read

  /** The hosts there will be: those read with an id, and the built-in one. */
  function KnownIds(d: Document): set<string> {
    HostIds(d.hosts) - {""} + {LOCAL_HOST_ID}
  }

  predicate IsFirst(hosts: seq<Host>, i: nat)
    requires i < |hosts|
  {
    hosts[i].id != "" && forall j :: 0 <= j < i ==> hosts[j].id != hosts[i].id
  }

  /** The host names no group, or none that is read with an id. */
  predicate IsHomeless(groups: set<string>, host: Host) {
    host.groupId.Some? ==> host.groupId.value !in groups
  }

  /** The hosts that will be listed behind the built-in one: those whose first entry is homeless. */
  function KeptIds(d: Document): set<string> {
    (set i | 0 <= i < |d.hosts| && IsFirst(d.hosts, i) && IsHomeless(GroupIds(d.groups) - {""}, d.hosts[i])
      :: d.hosts[i].id) - {LOCAL_HOST_ID}
  }

  lemma {:induction false} FirstGroupsNameAll(groups: seq<Group>)
    ensures GroupIds(FirstGroups(groups)) == GroupIds(groups) - {""}
  {
    if groups != [] {
      var before, last := groups[..|groups| - 1], groups[|groups| - 1];
      FirstGroupsNameAll(before);
      GroupIdsStep(before, last);
      GroupIdsStep(FirstGroups(before), last);
      assert groups == before + [last];
      hide GroupIds;
    }
  }

  lemma GroupIdsStep(groups: seq<Group>, last: Group)
    ensures GroupIds(groups + [last]) == GroupIds(groups) + {last.id}
  {
    assert forall group :: group in groups + [last] <==> group in groups || group == last;
  }

  lemma HostIdsStep(hosts: seq<Host>, last: Host)
    ensures HostIds(hosts + [last]) == HostIds(hosts) + {last.id}
  {
    assert forall host :: host in hosts + [last] <==> host in hosts || host == last;
  }

  lemma {:induction false} FirstHostsNameAll(hosts: seq<Host>)
    ensures HostIds(FirstHosts(hosts)) == HostIds(hosts) - {""}
  {
    if hosts != [] {
      var before, last := hosts[..|hosts| - 1], hosts[|hosts| - 1];
      FirstHostsNameAll(before);
      HostIdsStep(before, last);
      HostIdsStep(FirstHosts(before), last);
      assert hosts == before + [last];
      hide HostIds;
    }
  }

  function HomelessFirsts(groups: set<string>, hosts: seq<Host>): set<string> {
    set i | 0 <= i < |hosts| && IsFirst(hosts, i) && IsHomeless(groups, hosts[i]) :: hosts[i].id
  }

  function HomelessIds(groups: set<string>, hosts: seq<Host>): set<string> {
    set host | host in hosts && IsHomeless(groups, host) :: host.id
  }

  /** `host` is the first of its id, and that is one. */
  predicate ComesFirst(hosts: seq<Host>, host: Host) {
    exists i :: 0 <= i < |hosts| && IsFirst(hosts, i) && hosts[i] == host
  }

  lemma ComesFirstStep(hosts: seq<Host>, last: Host, host: Host)
    ensures ComesFirst(hosts + [last], host)
         == (ComesFirst(hosts, host) || (host == last && last.id != "" && last.id !in HostIds(hosts)))
  {
    var all := hosts + [last];
    assert forall i :: 0 <= i < |hosts| ==> all[i] == hosts[i] && (IsFirst(all, i) <==> IsFirst(hosts, i));
    assert all[|hosts|] == last;
    assert IsFirst(all, |hosts|) <==> last.id != "" && last.id !in HostIds(hosts) by {
      assert forall i :: 0 <= i < |hosts| ==> hosts[i].id in HostIds(hosts);
    }
  }

  lemma {:induction false} FirstHostsComeFirst(hosts: seq<Host>)
    ensures forall host :: host in FirstHosts(hosts) <==> ComesFirst(hosts, host)
  {
    if hosts != [] {
      var before, last := hosts[..|hosts| - 1], hosts[|hosts| - 1];
      FirstHostsComeFirst(before);
      FirstHostsNameAll(before);
      assert hosts == before + [last];
      forall host
        ensures host in FirstHosts(hosts) <==> ComesFirst(hosts, host)
      {
        ComesFirstStep(before, last, host);
        hide ComesFirst, HostIds;
      }
    }
  }

  lemma FirstHostsAreFirst(groups: set<string>, hosts: seq<Host>)
    ensures HomelessIds(groups, FirstHosts(hosts)) == HomelessFirsts(groups, hosts)
  {
    hide IsHomeless, IsFirst, FirstHosts;
    FirstHostsComeFirst(hosts);
    var firsts := FirstHosts(hosts);
    forall host | host in firsts && IsHomeless(groups, host)
      ensures host.id in HomelessFirsts(groups, hosts)
    {
      assert ComesFirst(hosts, host);
    }
    forall i | 0 <= i < |hosts| && IsFirst(hosts, i) && IsHomeless(groups, hosts[i])
      ensures hosts[i].id in HomelessIds(groups, firsts)
    {
      assert ComesFirst(hosts, hosts[i]);
    }
  }

  lemma NormalHostsKeep(blank: string -> bool, groups: set<string>, hosts: seq<Host>)
    ensures var next := NormalHosts(blank, groups, hosts);
      && HostIds(next) == HostIds(hosts)
      && Kept(next) == HomelessIds(groups, hosts) - {LOCAL_HOST_ID}
  {
    hide NormalConnection, PlainTags;
    var next := NormalHosts(blank, groups, hosts);
    assert |next| == |hosts| && forall i :: 0 <= i < |hosts| ==>
      && next[i].id == hosts[i].id
      && (hosts[i].id != LOCAL_HOST_ID ==> (next[i].groupId.None? <==> IsHomeless(groups, hosts[i])));
    hide NormalHosts, IsHomeless;
    NamesAlike(groups, hosts, next);
  }

  lemma NamesAlike(groups: set<string>, hosts: seq<Host>, next: seq<Host>)
    requires |next| == |hosts| && forall i :: 0 <= i < |hosts| ==>
      && next[i].id == hosts[i].id
      && (hosts[i].id != LOCAL_HOST_ID ==> (next[i].groupId.None? <==> IsHomeless(groups, hosts[i])))
    ensures HostIds(next) == HostIds(hosts) && Kept(next) == HomelessIds(groups, hosts) - {LOCAL_HOST_ID}
  {
    hide IsHomeless;
    forall i | 0 <= i < |hosts|
      ensures hosts[i].id in HostIds(next) && next[i].id in HostIds(hosts)
      ensures IsHomeless(groups, hosts[i]) && hosts[i].id != LOCAL_HOST_ID ==> hosts[i].id in Kept(next)
      ensures next[i].groupId.None? && next[i].id != LOCAL_HOST_ID ==> next[i].id in HomelessIds(groups, hosts)
    {
      assert hosts[i] in hosts && next[i] in next;
    }
  }

  lemma WithLocalAdds(groups: set<string>, hosts: seq<Host>)
    ensures HostIds(WithLocal(hosts)) == HostIds(hosts) + {LOCAL_HOST_ID}
    ensures HomelessIds(groups, WithLocal(hosts)) - {LOCAL_HOST_ID} == HomelessIds(groups, hosts) - {LOCAL_HOST_ID}
  {
    var next := WithLocal(hosts);
    assert LOCAL_HOST_ID !in HostIds(hosts) ==>
      forall host :: host in next <==> host == LOCAL_HOST || host in hosts;
  }

  /** What a pass knows and keeps can be told before it runs. */
  lemma NormalizedNames(blank: string -> bool, d: Document)
    ensures var next := Normalized(blank, d).hosts;
      HostIds(next) == KnownIds(d) && Kept(next) == KeptIds(d)
  {
    hide FirstHosts, FirstGroups, NormalHosts, WithLocal, NormalOrder, HostIds, GroupIds, Kept, HomelessIds, IsFirst,
      IsHomeless;
    var groups, firsts := GroupIds(d.groups) - {""}, FirstHosts(d.hosts);
    FirstGroupsNameAll(d.groups);
    FirstHostsNameAll(d.hosts);
    FirstHostsAreFirst(groups, d.hosts);
    WithLocalAdds(groups, firsts);
    NormalHostsKeep(blank, groups, WithLocal(firsts));
  }

  /** Normalising again changes nothing exactly when no ungrouped host comes back in the order
      after an entry for a grouped or the built-in host. */
  lemma NormalizeSettlesExactly(blank: string -> bool, d: Document)
    ensures var next := Normalized(blank, d);
      Normalized(blank, next) == next <==> !ComesBack(d.order, KnownIds(d), KeptIds(d))
  {
    hide Normalized, HostIds, Ungrouped, Kept, Dedup, NeighboursDiffer, NoRepeats, NormalOrder, ComesBack,
      KnownIds, KeptIds;
    NormalizedNames(blank, d);
    var next := Normalized(blank, d);
    var more := OnePass(blank, d);
    var survivors := Survivors(d.order, next.hosts);
    assert forall x :: x in survivors + more <==> x in Kept(next.hosts);
    FurtherPass(survivors + more, next.hosts);
    DedupKeepsExactly(survivors + more);
    DifferAppends(survivors, more);
    KeptAreKnown(next.hosts);
    NeighboursComeBack(d.order, HostIds(next.hosts), Kept(next.hosts));
    assert ([LOCAL_HOST_ID] + Dedup(survivors + more))[1..] == Dedup(survivors + more);
    assert ([LOCAL_HOST_ID] + (survivors + more))[1..] == survivors + more;
  }

  lemma KeptAreKnown(hosts: seq<Host>)
    ensures Kept(hosts) <= HostIds(hosts)
  {
  }

  /** Whatever the document, two passes are enough. */
  lemma TwoPassesSettle(blank: string -> bool, d: Document)
    ensures var twice := Normalized(blank, Normalized(blank, d)); Normalized(blank, twice) == twice
  {
    hide Normalized, HostIds, Ungrouped, Kept, Dedup, NeighboursDiffer, NoRepeats, NormalOrder, Survivors;
    var next := Normalized(blank, d);
    var more := OnePass(blank, d);
    var rest := Survivors(d.order, next.hosts) + more;
    assert forall x :: x in rest <==> x in Kept(next.hosts);
    FurtherPass(rest, next.hosts);
    var again := OnePass(blank, next);
    DedupIs(rest);
    FurtherPass(Dedup(rest), next.hosts);
    DedupKeepsExactly(Dedup(rest));
  }

  /** One pass makes the document consistent exactly when every ungrouped host's entries in the
      order stand together; an order that repeats nothing is one such. */
  lemma NormalizedIsConsistentExactly(blank: string -> bool, d: Document)
    ensures var next := Normalized(blank, d);
      && (IsConsistent(next) <==> StandTogether(d.order, KnownIds(d), KeptIds(d)))
      && (NoRepeats(d.order) ==> IsConsistent(next) && Normalized(blank, next) == next)
  {
    hide Normalized, Survivors, Dedup, NormalOrder, HostIds, AreWelcome, KnownIds, KeptIds;
    NormalizedNames(blank, d);
    var next := Normalized(blank, d);
    var more := OnePass(blank, d);
    var rest := Survivors(d.order, next.hosts) + more;
    KeptAreKnown(next.hosts);
    SurvivorsAreKept(d.order, next.hosts);
    DifferAppends(Survivors(d.order, next.hosts), more);
    assert forall x :: x in rest <==> x in Kept(next.hosts);
    OrderedBehindLocal(rest, next.hosts);
    if NoRepeats(d.order) {
      assert StandTogether(d.order, HostIds(next.hosts), Kept(next.hosts));
      NormalizeSettlesExactly(blank, d);
    }
  }

  lemma {:induction false} WithinTwice(order: seq<string>, known: set<string>, kept: set<string>)
    requires kept <= known
    ensures Within(Within(order, known), kept) == Within(order, kept)
  {
    if order != [] {
      var before, last := order[..|order| - 1], order[|order| - 1];
      WithinTwice(before, known, kept);
      assert (Within(before, known) + [last])[..|Within(before, known)|] == Within(before, known);
    }
  }

  lemma NoRepeatsDiffer(ids: seq<string>)
    requires NoRepeats(ids)
    ensures NeighboursDiffer(ids)
  {
  }

  /** A saved order without repeats is kept, but for the hosts that do not stay in it; the ungrouped ones it
      misses come behind, in the order of the hosts. */
  lemma OrderIsKept(blank: string -> bool, d: Document) returns (more: seq<string>)
    requires NoRepeats(d.order)
    ensures Normalized(blank, d).order == ["local"] + (Within(d.order, KeptIds(d)) + more)
    ensures NoRepeats(more) && forall x :: x in more <==> x in KeptIds(d) && x !in d.order
    ensures FollowHosts(more, Normalized(blank, d).hosts)
  {
    hide Normalized, NormalOrder, KnownIds, KeptIds, Dedup, NoRepeats, NeighboursDiffer, Within, FollowHosts;
    var next := Normalized(blank, d);
    more := OnePass(blank, d);
    NormalizedNames(blank, d);
    KeptAreKnown(next.hosts);
    WithinIs(d.order, KnownIds(d));
    WithinIs(d.order, KeptIds(d));
    NoRepeatsDiffer(Within(d.order, KnownIds(d)));
    DedupKeepsExactly(Within(d.order, KnownIds(d)));
    WithinTwice(d.order, KnownIds(d), KeptIds(d));
  }

  /** `at` lists, in order, the places where an id is there and comes for the first time. */
  ghost predicate ListsFirsts(at: seq<nat>, hosts: seq<Host>) {
    && (forall i, j :: 0 <= i < j < |at| ==> at[i] < at[j])
    && (forall i :: 0 <= i < |at| ==> at[i] < |hosts| && IsFirst(hosts, at[i]))
    && (forall k: nat :: k < |hosts| && IsFirst(hosts, k) ==> k in at)
  }

  ghost predicate ListsFirstGroups(at: seq<nat>, groups: seq<Group>) {
    && (forall i, j :: 0 <= i < j < |at| ==> at[i] < at[j])
    && (forall i :: 0 <= i < |at| ==> at[i] < |groups| && IsFirstGroup(groups, at[i]))
    && (forall k: nat :: k < |groups| && IsFirstGroup(groups, k) ==> k in at)
  }

  predicate IsFirstGroup(groups: seq<Group>, i: nat)
    requires i < |groups|
  {
    groups[i].id != "" && forall j :: 0 <= j < i ==> groups[j].id != groups[i].id
  }

  /** The hosts that stay are the first of each id, in the order read, each put in shape; the built-in one
      comes in front if it was not among them. */
  lemma HostsAreKept(blank: string -> bool, d: Document) returns (at: seq<nat>)
    ensures ListsFirsts(at, d.hosts)
    ensures var next, own := Normalized(blank, d).hosts, if "local" in HostIds(d.hosts) then 0 else 1;
      && |next| == own + |at|
      && (own == 1 ==> next[0] == NormalHost(blank, GroupIds(d.groups) - {""}, LOCAL_HOST))
      && forall i :: 0 <= i < |at| ==>
           next[own + i] == NormalHost(blank, GroupIds(d.groups) - {""}, d.hosts[at[i]])
  {
    hide NormalHost, GroupIds, HostIds, NormalOrder, IsFirst, FirstGroups, FirstHosts;
    at := FirstHostsAt(d.hosts);
    FirstHostsNameAll(d.hosts);
    FirstGroupsNameAll(d.groups);
  }

  /** So are the groups that stay. */
  lemma GroupsAreKept(blank: string -> bool, d: Document) returns (at: seq<nat>)
    ensures ListsFirstGroups(at, d.groups)
    ensures var next := Normalized(blank, d).groups;
      |next| == |at| && forall i :: 0 <= i < |at| ==> next[i] == d.groups[at[i]]
  {
    hide FirstGroups, IsFirstGroup;
    at := FirstGroupsAt(d.groups);
  }

  lemma FirstOfHosts(before: seq<Host>, last: Host)
    ensures forall k: nat :: k < |before| ==> IsFirst(before + [last], k) == IsFirst(before, k)
    ensures IsFirst(before + [last], |before|) == (last.id != "" && last.id !in HostIds(before))
  {
    assert forall i :: 0 <= i < |before| ==> (before + [last])[i] == before[i];
    if last.id in HostIds(before) {
      var i :| 0 <= i < |before| && before[i].id == last.id;
    }
    assert forall i :: 0 <= i < |before| ==> before[i] in before;
  }

  lemma ListsFirstsNothing()
    ensures ListsFirsts([], []) && FirstHosts([]) == []
  {
  }

  lemma ListsFirstsOn(at: seq<nat>, before: seq<Host>, last: Host)
    requires ListsFirsts(at, before)
    ensures forall i :: 0 <= i < |at| ==> at[i] < |before|
    ensures var next := if last.id != "" && last.id !in HostIds(before) then at + [|before|] else at;
      ListsFirsts(next, before + [last])
  {
    FirstOfHosts(before, last);
    hide IsFirst, HostIds;
  }

  lemma FirstHostsNext(before: seq<Host>, last: Host)
    ensures FirstHosts(before + [last])
         == if last.id != "" && last.id !in HostIds(before) then FirstHosts(before) + [last] else FirstHosts(before)
  {
    FirstHostsNameAll(before);
    assert (before + [last])[..|before|] == before;
    hide HostIds;
  }

  lemma {:induction false} FirstHostsAt(hosts: seq<Host>) returns (at: seq<nat>)
    ensures ListsFirsts(at, hosts) && |at| == |FirstHosts(hosts)|
    ensures forall i :: 0 <= i < |at| ==> FirstHosts(hosts)[i] == hosts[at[i]]
  {
    hide ListsFirsts, FirstHosts, HostIds;
    if hosts == [] {
      at := [];
      ListsFirstsNothing();
    } else {
      var before, last := hosts[..|hosts| - 1], hosts[|hosts| - 1];
      at := FirstHostsAt(before);
      FirstHostsNext(before, last);
      ListsFirstsOn(at, before, last);
      assert hosts == before + [last];
      if last.id != "" && last.id !in HostIds(before) {
        at := at + [|before|];
      }
    }
  }

  lemma FirstOfGroups(before: seq<Group>, last: Group)
    ensures forall k: nat :: k < |before| ==> IsFirstGroup(before + [last], k) == IsFirstGroup(before, k)
    ensures IsFirstGroup(before + [last], |before|) == (last.id != "" && last.id !in GroupIds(before))
  {
    assert forall i :: 0 <= i < |before| ==> (before + [last])[i] == before[i];
    if last.id in GroupIds(before) {
      var i :| 0 <= i < |before| && before[i].id == last.id;
    }
    assert forall i :: 0 <= i < |before| ==> before[i] in before;
  }

  lemma ListsFirstGroupsNothing()
    ensures ListsFirstGroups([], []) && FirstGroups([]) == []
  {
  }

  lemma ListsFirstGroupsOn(at: seq<nat>, before: seq<Group>, last: Group)
    requires ListsFirstGroups(at, before)
    ensures forall i :: 0 <= i < |at| ==> at[i] < |before|
    ensures var next := if last.id != "" && last.id !in GroupIds(before) then at + [|before|] else at;
      ListsFirstGroups(next, before + [last])
  {
    FirstOfGroups(before, last);
    hide IsFirstGroup, GroupIds;
  }

  lemma FirstGroupsNext(before: seq<Group>, last: Group)
    ensures FirstGroups(before + [last])
         == if last.id != "" && last.id !in GroupIds(before) then FirstGroups(before) + [last] else FirstGroups(before)
  {
    FirstGroupsNameAll(before);
    assert (before + [last])[..|before|] == before;
    hide GroupIds;
  }

  lemma {:induction false} FirstGroupsAt(groups: seq<Group>) returns (at: seq<nat>)
    ensures ListsFirstGroups(at, groups) && |at| == |FirstGroups(groups)|
    ensures forall i :: 0 <= i < |at| ==> FirstGroups(groups)[i] == groups[at[i]]
  {
    hide ListsFirstGroups, FirstGroups, GroupIds;
    if groups == [] {
      at := [];
      ListsFirstGroupsNothing();
    } else {
      var before, last := groups[..|groups| - 1], groups[|groups| - 1];
      at := FirstGroupsAt(before);
      FirstGroupsNext(before, last);
      ListsFirstGroupsOn(at, before, last);
      assert groups == before + [last];
      if last.id != "" && last.id !in GroupIds(before) {
        at := at + [|before|];
      }
    }
  }

  lemma SurvivorsAreKept(order: seq<string>, hosts: seq<Host>)
    ensures NoRepeats(Survivors(order, hosts)) <==> StandTogether(order, HostIds(hosts), Kept(hosts))
  {
    hide HostIds, Kept, Within, Dedup, NoRepeats, StandTogether;
    KeptAreKnown(hosts);
    SurvivorsStandTogether(order, HostIds(hosts), Kept(hosts));
  }

  lemma OrderedBehindLocal(rest: seq<string>, hosts: seq<Host>)
    requires LOCAL_HOST_ID in Ungrouped(hosts) && forall x :: x in rest <==> x in Kept(hosts)
    ensures IsOrdered([LOCAL_HOST_ID] + rest, hosts) <==> NoRepeats(rest)
  {
    var order := [LOCAL_HOST_ID] + rest;
    hide Ungrouped;
    assert LOCAL_HOST_ID !in rest;
    if NoRepeats(order) {
      forall i, j | 0 <= i < j < |rest|
        ensures rest[i] != rest[j]
      {
        assert order[i + 1] != order[j + 1];
      }
    }
  }

  lemma WithinAroundLocal(a: string)
    requires a != LOCAL_HOST_ID
    ensures Within([a, LOCAL_HOST_ID, a], {a}) == [a, a]
  {
    WithinSplits([a], [LOCAL_HOST_ID], {a});
    WithinSplits([a, LOCAL_HOST_ID], [a], {a});
    WithinAll([a], {a});
    assert Within([LOCAL_HOST_ID], {a}) == Within([], {a}) == [] by {
      assert [LOCAL_HOST_ID][..0] == [];
    }
    hide Within;
    assert [a] + [LOCAL_HOST_ID] == [a, LOCAL_HOST_ID] && [a, LOCAL_HOST_ID] + [a] == [a, LOCAL_HOST_ID, a];
    assert [a] + [] + [a] == [a, a];
  }

  lemma OrderAroundLocal(a: string, hosts: seq<Host>)
    requires a != LOCAL_HOST_ID && HostIds(hosts) == Ungrouped(hosts) == {a, LOCAL_HOST_ID} && Grouped(hosts) == {}
    ensures NormalOrder([a, LOCAL_HOST_ID, a], hosts) == [LOCAL_HOST_ID, a, a]
  {
    var order := [a, LOCAL_HOST_ID, a];
    assert NeighboursDiffer(order);
    hide HostIds, Grouped, Ungrouped, NeighboursDiffer, Within, Dedup, WithMissing, Outside;
    WithinAll(order, HostIds(hosts));
    DedupKeepsExactly(order);
    NothingMissing(order, hosts);
    OutsideIsWithin(order, Grouped(hosts), {a});
    WithinAroundLocal(a);
    assert [LOCAL_HOST_ID] + [a, a] == [LOCAL_HOST_ID, a, a];
  }

  lemma OrderBehindLocal(a: string, hosts: seq<Host>)
    requires a != LOCAL_HOST_ID && AreUnique(hosts) && Kept(hosts) == {a} && LOCAL_HOST_ID in Ungrouped(hosts)
    ensures NormalOrder([LOCAL_HOST_ID, a, a], hosts) == [LOCAL_HOST_ID, a]
  {
    hide Kept, Ungrouped, NormalOrder;
    FurtherPass([a, a], hosts);
    DedupStep([], a);
    DedupStep([a], a);
    assert [LOCAL_HOST_ID] + [a, a] == [LOCAL_HOST_ID, a, a] && [a] + [a] == [a, a];
  }

  lemma TwoHosts(blank: string -> bool, host: Host)
    requires host.id != LOCAL_HOST_ID && host.id != "" && host.groupId.None?
    ensures var d := Document([], [host.id, LOCAL_HOST_ID, host.id], [host]);
      var hosts := Normalized(blank, d).hosts;
      && |hosts| == 2 && hosts[0].id == LOCAL_HOST_ID && hosts[0].groupId.None?
      && hosts[1].id == host.id && hosts[1].groupId.None?
  {
    hide NormalConnection, PlainTags, NormalOrder;
    assert [host][..0] == [];
    assert FirstHosts([host]) == [host];
    assert WithLocal([host]) == [LOCAL_HOST, host];
  }

  lemma TwoUngrouped(hosts: seq<Host>, a: string)
    requires |hosts| == 2 && hosts[0].id == LOCAL_HOST_ID && hosts[1].id == a != LOCAL_HOST_ID
    requires hosts[0].groupId.None? && hosts[1].groupId.None?
    ensures Kept(hosts) == {a} && HostIds(hosts) == Ungrouped(hosts) == {a, LOCAL_HOST_ID} && Grouped(hosts) == {}
  {
    assert hosts == [hosts[0], hosts[1]];
    assert hosts[0] in hosts && hosts[1] in hosts;
  }

  /** The order that needs two passes: an ungrouped host listed before and after the built-in one. */
  lemma LocalBetween(blank: string -> bool, host: Host)
    requires host.id != LOCAL_HOST_ID && host.id != "" && host.groupId.None?
    ensures var d := Document([], [host.id, LOCAL_HOST_ID, host.id], [host]);
      var once, twice := Normalized(blank, d), Normalized(blank, Normalized(blank, d));
      && once.order == [LOCAL_HOST_ID, host.id, host.id] && !IsConsistent(once)
      && twice.order == [LOCAL_HOST_ID, host.id]
  {
    var d := Document([], [host.id, LOCAL_HOST_ID, host.id], [host]);
    var once := Normalized(blank, d);
    TwoHosts(blank, host);
    TwoUngrouped(once.hosts, host.id);
    assert once.order == NormalOrder(d.order, once.hosts);
    hide Normalized, NormalOrder, HostIds, Ungrouped, Kept, Survivors, AreWelcome, AreUniqueGroups;
    var more := OnePass(blank, d);
    OrderAroundLocal(host.id, once.hosts);
    OrderBehindLocal(host.id, once.hosts);
    assert once.order[1] == once.order[2];
  }

  // ---------------------------------------------------------------- adding, replacing and removing hosts

  /** Where the host with `id` is, or the end. */
  function IndexOf(hosts: seq<Host>, id: string): (i: nat)
    ensures i <= |hosts|
    ensures i < |hosts| ==> hosts[i].id == id
    ensures forall j :: 0 <= j < i ==> hosts[j].id != id
  {
    if hosts == [] || hosts[0].id == id then 0 else 1 + IndexOf(hosts[1..], id)
  }

  function Placed(hosts: seq<Host>, host: Host): seq<Host> {
    var i := IndexOf(hosts, host.id);
    if i < |hosts| then hosts[i := host] else hosts + [host]
  }

  function Upserted(d: Document, host: Host): Document {
    var hosts := Placed(d.hosts, host);
    d.(hosts := hosts, order := WithMissing(Within(d.order, Ungrouped(hosts)), hosts))
  }

  function WithoutJump(host: Host, id: string): Host {
    if host.connection.jumpHostId == Some(id) then host.(connection := host.connection.(jumpHostId := None)) else host
  }

  function WithoutJumps(hosts: seq<Host>, id: string): seq<Host> {
    seq(|hosts|, i requires 0 <= i < |hosts| => WithoutJump(hosts[i], id))
  }

  datatype Removal = Removal(document: Document, host: Option<Host>)

  function Removed(d: Document, id: string): Removal {
    var i := IndexOf(d.hosts, id);
    if id == LOCAL_HOST_ID || i == |d.hosts| then Removal(d, None)
    else
      var hosts := WithoutJumps(d.hosts[..i] + d.hosts[i + 1..], id);
      Removal(d.(hosts := hosts, order := Outside(d.order, {id})), Some(d.hosts[i]))
  }

  /** The hosts but for those with `id`, in order. */
  function Others(hosts: seq<Host>, id: string): seq<Host> {
    if hosts == [] then []
    else if hosts[0].id == id then Others(hosts[1..], id)
    else [hosts[0]] + Others(hosts[1..], id)
  }

  lemma {:induction false} OthersAll(hosts: seq<Host>, id: string)
    requires forall i :: 0 <= i < |hosts| ==> hosts[i].id != id
    ensures Others(hosts, id) == hosts
  {
    if hosts != [] {
      OthersAll(hosts[1..], id);
    }
  }

  lemma {:induction false} DroppedIsOthers(hosts: seq<Host>, i: nat)
    requires AreUnique(hosts) && i < |hosts|
    ensures hosts[..i] + hosts[i + 1..] == Others(hosts, hosts[i].id)
    decreases i
  {
    if i == 0 {
      OthersAll(hosts[1..], hosts[0].id);
      assert hosts[..0] + hosts[1..] == hosts[1..];
    } else {
      var rest := hosts[1..];
      DroppedIsOthers(rest, i - 1);
      assert hosts[..i] == [hosts[0]] + rest[..i - 1] && hosts[i + 1..] == rest[i..];
      assert [hosts[0]] + (rest[..i - 1] + rest[i..]) == [hosts[0]] + rest[..i - 1] + rest[i..];
    }
  }

  lemma PlacedIs(hosts: seq<Host>, host: Host)
    requires AreUnique(hosts)
    ensures var next := Placed(hosts, host);
      && AreUnique(next) && host in next && HostIds(next) == HostIds(hosts) + {host.id}
      && Ungrouped(next) == Ungrouped(hosts) - {host.id} + (if host.groupId.None? then {host.id} else {})
      && forall other :: other in next <==> other == host || (other in hosts && other.id != host.id)
  {
    var i, next := IndexOf(hosts, host.id), Placed(hosts, host);
    assert next[i] == host;
    assert forall j :: 0 <= j < |hosts| && j != i ==> next[j] == hosts[j] && hosts[j].id != host.id;
    forall other | other in hosts && other.id != host.id
      ensures other in next
    {
      var j :| 0 <= j < |hosts| && hosts[j] == other;
      assert next[j] == other;
    }
    forall other | other in next
      ensures other == host || (other in hosts && other.id != host.id)
    {
      var j :| 0 <= j < |next| && next[j] == other;
    }
  }

  lemma WithinHead(order: seq<string>, ids: set<string>)
    requires order != [] && order[0] in ids
    ensures Within(order, ids) != [] && Within(order, ids)[0] == order[0]
  {
    WithinSplits([order[0]], order[1..], ids);
    WithinAll([order[0]], ids);
    assert order == [order[0]] + order[1..];
  }

  lemma WelcomeAll(groups: set<string>, hosts: seq<Host>, host: Host)
    requires AreWelcome(groups, hosts) && AreUnique(hosts)
    ensures AreWelcome(groups, Placed(hosts, host)) <==> IsWelcome(groups, host)
  {
    PlacedIs(hosts, host);
    var next := Placed(hosts, host);
    hide Placed, AreUnique, IsWelcome;
    if IsWelcome(groups, host) {
      forall i | 0 <= i < |next|
        ensures IsWelcome(groups, next[i])
      {
        assert next[i] in next;
      }
    }
    if AreWelcome(groups, next) {
      var i :| 0 <= i < |next| && next[i] == host;
    }
  }

  lemma UpsertKeepsOrder(order: seq<string>, hosts: seq<Host>, host: Host)
    requires IsOrdered(order, hosts) && AreUnique(hosts) && LOCAL_HOST_ID in Ungrouped(Placed(hosts, host))
    ensures var next := Placed(hosts, host);
      IsOrdered(WithMissing(Within(order, Ungrouped(next)), next), next)
  {
    var next := Placed(hosts, host);
    var ids := Ungrouped(next);
    var more := MissingIs(Within(order, ids), next);
    hide Ungrouped, Placed, Within, WithMissing;
    WithinIs(order, ids);
    WithinHead(order, ids);
    RepeatsAppend(Within(order, ids), more);
  }

  /** Adding or replacing a host keeps the document consistent exactly when the host is welcome:
      its group exists, and the built-in host stays what it is. */
  lemma UpsertKeepsExactly(d: Document, host: Host)
    requires IsConsistent(d)
    ensures IsConsistent(Upserted(d, host)) <==> IsWelcome(GroupIds(d.groups), host)
  {
    var next := Upserted(d, host);
    PlacedIs(d.hosts, host);
    WelcomeAll(GroupIds(d.groups), d.hosts, host);
    hide IsOrdered, IsWelcome, AreWelcome, AreUnique, AreUniqueGroups, Placed, HostIds, Ungrouped, GroupIds;
    if IsWelcome(GroupIds(d.groups), host) {
      LocalIsUngrouped(GroupIds(d.groups), next.hosts);
      UpsertKeepsOrder(d.order, d.hosts, host);
    }
  }

  /** Where an upsert leaves the order: a host that is newly outside any group goes last, one that
      joined a group is gone, and everything else stays where it was. */
  lemma UpsertPlaces(d: Document, host: Host)
    requires IsConsistent(d)
    ensures Upserted(d, host).order
         == if host.groupId.Some? then Outside(d.order, {host.id})
            else if host.id in d.order then d.order else d.order + [host.id]
  {
    PlacedIs(d.hosts, host);
    var ids := Ungrouped(Placed(d.hosts, host));
    var order := Within(d.order, ids);
    WithinIs(d.order, ids);
    if host.groupId.Some? {
      NothingMissing(order, Placed(d.hosts, host));
      OutsideIsOthers(d.order, host.id, ids);
    } else {
      WithinAll(d.order, ids);
      var more := MissingIs(order, Placed(d.hosts, host));
      if host.id in d.order {
        NothingMissing(order, Placed(d.hosts, host));
      } else {
        assert more == [host.id] by {
          OnlyOne(more, host.id);
        }
      }
    }
  }

  lemma OnlyOne(ids: seq<string>, id: string)
    requires NoRepeats(ids) && forall x :: x in ids <==> x == id
    ensures ids == [id]
  {
    forall i | 0 <= i < |ids|
      ensures ids[i] == id
    {
      assert ids[i] in ids;
    }
    FirstTwoDiffer(ids);
    assert id in ids;
  }

  lemma FirstTwoDiffer(ids: seq<string>)
    requires NoRepeats(ids)
    ensures |ids| > 1 ==> ids[0] != ids[1]
  {
  }

  lemma {:induction false} OutsideIsOthers(order: seq<string>, id: string, ids: set<string>)
    requires forall x :: x in order ==> (x in ids <==> x != id)
    ensures Within(order, ids) == Outside(order, {id})
  {
    if order != [] {
      OutsideIsOthers(order[..|order| - 1], id, ids);
    }
  }

  lemma DroppedHost(hosts: seq<Host>, i: nat)
    requires AreUnique(hosts) && i < |hosts|
    ensures var rest := hosts[..i] + hosts[i + 1..];
      && AreUnique(rest) && forall host :: host in rest <==> host in hosts && host.id != hosts[i].id
  {
    var rest := hosts[..i] + hosts[i + 1..];
    assert forall j :: 0 <= j < |rest| ==> rest[j] == hosts[if j < i then j else j + 1];
    forall host | host in hosts && host.id != hosts[i].id
      ensures host in rest
    {
      var k :| 0 <= k < |hosts| && hosts[k] == host;
      assert rest[if k < i then k else k - 1] == host;
    }
  }

  lemma JumpsCleared(hosts: seq<Host>, id: string)
    requires AreUnique(hosts)
    ensures var next := WithoutJumps(hosts, id);
      && AreUnique(next) && HostIds(next) == HostIds(hosts) && Ungrouped(next) == Ungrouped(hosts)
      && forall j :: 0 <= j < |next| ==> next[j].connection.jumpHostId != Some(id)
  {
    var next := WithoutJumps(hosts, id);
    assert |next| == |hosts|;
    assert forall j :: 0 <= j < |hosts| ==>
      && next[j].id == hosts[j].id && next[j].groupId == hosts[j].groupId
      && next[j].connection.jumpHostId != Some(id);
    hide WithoutJumps, AreUnique;
    assert AreUnique(next) by {
      UniqueById(hosts, next);
    }
    SameIds(hosts, next);
    SameIds(next, hosts);
  }

  lemma UniqueById(hosts: seq<Host>, next: seq<Host>)
    requires AreUnique(hosts) && |next| == |hosts| && forall j :: 0 <= j < |hosts| ==> next[j].id == hosts[j].id
    ensures AreUnique(next)
  {
  }

  lemma SameIds(hosts: seq<Host>, next: seq<Host>)
    requires |next| == |hosts|
    requires forall j :: 0 <= j < |hosts| ==> next[j].id == hosts[j].id && next[j].groupId == hosts[j].groupId
    ensures HostIds(hosts) <= HostIds(next) && Ungrouped(hosts) <= Ungrouped(next)
  {
    forall j | 0 <= j < |hosts|
      ensures hosts[j].id in HostIds(next) && (hosts[j].groupId.None? ==> hosts[j].id in Ungrouped(next))
    {
      assert next[j] in next;
    }
  }

  lemma OutsideIs(order: seq<string>, id: string)
    requires order != [] && order[0] != id && NoRepeats(order)
    ensures var next := Outside(order, {id});
      next != [] && next[0] == order[0] && NoRepeats(next) && forall x :: x in next <==> x in order && x != id
  {
    var ids := (set x | x in order) - {id};
    OutsideIsOthers(order, id, ids);
    WithinIs(order, ids);
    WithinHead(order, ids);
  }

  /** Removing a host that is there takes out just that host, its place in the order and every
      reference to it as a jump host, and keeps the document consistent; the built-in host and one
      that is not there are left alone. */
  lemma RemoveKeeps(d: Document, id: string)
    requires IsConsistent(d)
    ensures var next := Removed(d, id).document;
      && IsConsistent(next) && next.groups == d.groups
      && Removed(d, id).host.Some? == (id in HostIds(d.hosts) && id != LOCAL_HOST_ID)
      && (Removed(d, id).host.None? ==> next == d)
      && (Removed(d, id).host.Some? ==>
            && Removed(d, id).host.value in d.hosts && Removed(d, id).host.value.id == id
            && HostIds(next.hosts) == HostIds(d.hosts) - {id}
            && next.hosts == WithoutJumps(Others(d.hosts, id), id) && next.order == Outside(d.order, {id})
            && forall i :: 0 <= i < |next.hosts| ==> next.hosts[i].connection.jumpHostId != Some(id))
  {
    var i := IndexOf(d.hosts, id);
    assert i < |d.hosts| ==> d.hosts[i] in d.hosts;
    if id != LOCAL_HOST_ID && i < |d.hosts| {
      RemoveKeepsFound(d, i);
      DroppedIsOthers(d.hosts, i);
    }
  }

  /** A jump reference to the host is cleared, and nothing else of any host. */
  lemma JumpsAreCleared(hosts: seq<Host>, id: string)
    ensures |WithoutJumps(hosts, id)| == |hosts|
    ensures forall i :: 0 <= i < |hosts| && hosts[i].connection.jumpHostId != Some(id) ==>
      WithoutJumps(hosts, id)[i] == hosts[i]
    ensures forall i :: 0 <= i < |hosts| && hosts[i].connection.jumpHostId == Some(id) ==>
      var host := WithoutJumps(hosts, id)[i];
      && host.connection.jumpHostId == None
      && host.(connection := host.connection.(jumpHostId := Some(id))) == hosts[i]
  {
  }

  /** Every host keeps its place: the one with the id is replaced there, and a new one comes behind the others. */
  lemma UpsertedInPlace(d: Document, host: Host)
    requires AreUnique(d.hosts)
    ensures Upserted(d, host).groups == d.groups
    ensures |Upserted(d, host).hosts| == |d.hosts| + (if host.id in HostIds(d.hosts) then 0 else 1)
    ensures forall i :: 0 <= i < |d.hosts| ==>
      Upserted(d, host).hosts[i] == (if d.hosts[i].id == host.id then host else d.hosts[i])
    ensures host.id !in HostIds(d.hosts) ==> Upserted(d, host).hosts[|d.hosts|] == host
  {
    var at := IndexOf(d.hosts, host.id);
    if at < |d.hosts| {
      assert d.hosts[at] in d.hosts;
    }
  }

  lemma RemoveKeepsFound(d: Document, i: nat)
    requires IsConsistent(d) && i < |d.hosts| && d.hosts[i].id != LOCAL_HOST_ID
    ensures var id := d.hosts[i].id;
      var hosts := WithoutJumps(d.hosts[..i] + d.hosts[i + 1..], id);
      && IsConsistent(d.(hosts := hosts, order := Outside(d.order, {id})))
      && HostIds(hosts) == HostIds(d.hosts) - {id}
      && forall j :: 0 <= j < |hosts| ==> hosts[j].connection.jumpHostId != Some(id)
  {
    var id, rest := d.hosts[i].id, d.hosts[..i] + d.hosts[i + 1..];
    var hosts := WithoutJumps(rest, id);
    DroppedHost(d.hosts, i);
    DroppedIds(d.hosts, rest, id);
    WelcomeRest(GroupIds(d.groups), d.hosts, rest, id);
    hide AreUnique, HostIds, Ungrouped, WithoutJumps, AreWelcome, AreUniqueGroups, Outside, NoRepeats;
    JumpsCleared(rest, id);
    OutsideIs(d.order, id);
  }

  lemma DroppedIds(hosts: seq<Host>, rest: seq<Host>, id: string)
    requires forall host :: host in rest <==> host in hosts && host.id != id
    ensures HostIds(rest) == HostIds(hosts) - {id} && Ungrouped(rest) == Ungrouped(hosts) - {id}
  {
  }

  lemma WelcomeRest(groups: set<string>, hosts: seq<Host>, rest: seq<Host>, id: string)
    requires AreWelcome(groups, hosts) && forall host :: host in rest <==> host in hosts && host.id != id
    ensures AreWelcome(groups, WithoutJumps(rest, id))
  {
    var next := WithoutJumps(rest, id);
    forall i | 0 <= i < |rest|
      ensures IsWelcome(groups, next[i])
    {
      assert rest[i] in rest;
      var k :| 0 <= k < |hosts| && hosts[k] == rest[i];
    }
  }

  /** Removing a host that was just added gives back the document it was added to, if nothing
      referred to it. */
  lemma RemoveUndoesUpsert(d: Document, host: Host)
    requires IsConsistent(d) && IsWelcome(GroupIds(d.groups), host) && host.id !in HostIds(d.hosts)
    requires forall i :: 0 <= i < |d.hosts| ==> d.hosts[i].connection.jumpHostId != Some(host.id)
    ensures Removed(Upserted(d, host), host.id) == Removal(d, Some(host))
  {
    var hosts, next := Placed(d.hosts, host), Upserted(d, host);
    assert forall i :: 0 <= i < |d.hosts| ==> d.hosts[i] in d.hosts;
    assert IndexOf(d.hosts, host.id) == |d.hosts| && hosts == d.hosts + [host];
    assert hosts[|d.hosts|] == host;
    assert forall i :: 0 <= i < |d.hosts| ==> hosts[i] == d.hosts[i];
    assert IndexOf(hosts, host.id) == |d.hosts|;
    assert hosts[..|d.hosts|] + hosts[|d.hosts| + 1..] == d.hosts;
    assert WithoutJumps(d.hosts, host.id) == d.hosts;
    assert host.id !in d.order by {
      UngroupedIsNotGrouped(d.hosts);
    }
    UpsertPlaces(d, host);
    OutsideAbsent(d.order, host.id);
    assert (d.order + [host.id])[..|d.order|] == d.order;
  }

  lemma {:induction false} OutsideAbsent(order: seq<string>, id: string)
    requires id !in order
    ensures Outside(order, {id}) == order
  {
    if order != [] {
      OutsideAbsent(order[..|order| - 1], id);
      assert order == order[..|order| - 1] + [order[|order| - 1]];
    }
  }

  // ---------------------------------------------------------------- whole runs

  datatype Step = Upsert(host: Host) | Remove(id: string)

  function After(d: Document, step: Step): Document {
    match step
    case Upsert(host) => Upserted(d, host)
    case Remove(id) => Removed(d, id).document
  }

  function Run(d: Document, steps: seq<Step>): Document {
    if steps == [] then d else After(Run(d, steps[..|steps| - 1]), steps[|steps| - 1])
  }

  ghost predicate ConsistentThroughout(d: Document, steps: seq<Step>) {
    && IsConsistent(Run(d, steps))
    && (steps != [] ==> ConsistentThroughout(d, steps[..|steps| - 1]))
  }

  predicate WelcomeThroughout(groups: set<string>, steps: seq<Step>) {
    forall i :: 0 <= i < |steps| && steps[i].Upsert? ==> IsWelcome(groups, steps[i].host)
  }

  /** A document is consistent from its reading on, through every later upsert and removal, exactly when
      the entries of its order stand together as it is read and every host that is added is welcome. */
  lemma {:induction false} RunsStayConsistent(blank: string -> bool, read: Document, steps: seq<Step>)
    ensures var d, groups := Normalized(blank, read), GroupIds(read.groups) - {""};
      && GroupIds(Run(d, steps).groups) == groups
      && (ConsistentThroughout(d, steps)
          <==> StandTogether(read.order, KnownIds(read), KeptIds(read)) && WelcomeThroughout(groups, steps))
    decreases |steps|
  {
    hide Normalized, IsConsistent, NoRepeats, IsWelcome, GroupIds, Upserted, Removed, StandTogether, KnownIds, KeptIds;
    var d := Normalized(blank, read);
    assert GroupIds(d.groups) == GroupIds(read.groups) - {""} by {
      NormalizedGroups(blank, read);
    }
    if steps == [] {
      NormalizedIsConsistentExactly(blank, read);
    } else {
      var before, last := steps[..|steps| - 1], steps[|steps| - 1];
      RunsStayConsistent(blank, read, before);
      var s := Run(d, before);
      GroupsStay(s, last);
      WelcomeStep(GroupIds(d.groups), steps);
      if IsConsistent(s) {
        match last {
          case Upsert(host) => UpsertKeepsExactly(s, host);
          case Remove(id) => RemoveKeeps(s, id);
        }
      }
    }
  }

  lemma WelcomeStep(groups: set<string>, steps: seq<Step>)
    requires steps != []
    ensures var before, last := steps[..|steps| - 1], steps[|steps| - 1];
      WelcomeThroughout(groups, steps)
        == (WelcomeThroughout(groups, before) && (last.Upsert? ==> IsWelcome(groups, last.host)))
  {
    hide IsWelcome;
    var before := steps[..|steps| - 1];
    assert forall i :: 0 <= i < |before| ==> before[i] == steps[i];
  }

  lemma NormalizedGroups(blank: string -> bool, d: Document)
    ensures GroupIds(Normalized(blank, d).groups) == GroupIds(d.groups) - {""}
  {
    FirstGroupsNameAll(d.groups);
  }

  lemma GroupsStay(d: Document, step: Step)
    ensures After(d, step).groups == d.groups
  {
  }

  // ---------------------------------------------------------------- jump references

  predicate JumpIsKnown(ids: set<string>, host: Host) {
    host.connection.jumpHostId.Some? ==> host.connection.jumpHostId.value in ids
  }

  /** Every jump reference names a host of the document. */
  predicate JumpsAreKnown(d: Document) {
    forall host :: host in d.hosts ==> JumpIsKnown(HostIds(d.hosts), host)
  }

  /** The reference of a host that stays, and may have one, names a host that will be there. */
  predicate JumpsReadAreKnown(d: Document) {
    forall i :: 0 <= i < |d.hosts| && IsFirst(d.hosts, i) && KeepsJump(d.hosts[i]) ==>
      JumpIsKnown(KnownIds(d), d.hosts[i])
  }

  predicate KeepsJump(host: Host) {
    host.id != LOCAL_HOST_ID && host.connection.kind.Ssh?
  }

  lemma NormalJump(blank: string -> bool, groups: set<string>, host: Host)
    ensures NormalHost(blank, groups, host).connection.jumpHostId
         == if KeepsJump(host) then host.connection.jumpHostId else None
  {
    hide PlainTags, Without;
  }

  lemma NormalJumps(blank: string -> bool, groups: set<string>, hosts: seq<Host>, ids: set<string>)
    ensures (forall host :: host in NormalHosts(blank, groups, hosts) ==> JumpIsKnown(ids, host))
       <==> forall host :: host in hosts && KeepsJump(host) ==> JumpIsKnown(ids, host)
  {
    var next := NormalHosts(blank, groups, hosts);
    assert |next| == |hosts| && forall i :: 0 <= i < |hosts| ==> next[i] == NormalHost(blank, groups, hosts[i]);
    hide NormalHosts, NormalHost, KeepsJump;
    forall i | 0 <= i < |hosts|
      ensures JumpIsKnown(ids, next[i]) <==> (KeepsJump(hosts[i]) ==> JumpIsKnown(ids, hosts[i]))
    {
      NormalJump(blank, groups, hosts[i]);
    }
    hide JumpIsKnown;
    JumpsAlike(ids, hosts, next);
  }

  lemma JumpsAlike(ids: set<string>, hosts: seq<Host>, next: seq<Host>)
    requires |next| == |hosts| && forall i :: 0 <= i < |hosts| ==>
      (JumpIsKnown(ids, next[i]) <==> (KeepsJump(hosts[i]) ==> JumpIsKnown(ids, hosts[i])))
    ensures (forall host :: host in next ==> JumpIsKnown(ids, host))
       <==> forall host :: host in hosts && KeepsJump(host) ==> JumpIsKnown(ids, host)
  {
    hide KeepsJump, JumpIsKnown;
    assert forall i :: 0 <= i < |hosts| ==> hosts[i] in hosts && next[i] in next;
  }

  lemma LocalKeepsNoJump(hosts: seq<Host>, ids: set<string>)
    ensures (forall host :: host in WithLocal(hosts) && KeepsJump(host) ==> JumpIsKnown(ids, host))
       <==> forall host :: host in hosts && KeepsJump(host) ==> JumpIsKnown(ids, host)
  {
    hide JumpIsKnown, HostIds;
    assert !KeepsJump(LOCAL_HOST);
    assert forall host :: host in hosts ==> host in WithLocal(hosts);
  }

  lemma FirstJumps(d: Document)
    ensures (forall host :: host in FirstHosts(d.hosts) && KeepsJump(host) ==> JumpIsKnown(KnownIds(d), host))
       <==> JumpsReadAreKnown(d)
  {
    hide FirstHosts, IsFirst, KeepsJump, JumpIsKnown, KnownIds;
    FirstHostsComeFirst(d.hosts);
    forall i | 0 <= i < |d.hosts| && IsFirst(d.hosts, i)
      ensures d.hosts[i] in FirstHosts(d.hosts)
    {
      assert ComesFirst(d.hosts, d.hosts[i]);
    }
  }

  /** Normalising drops no jump reference of an SSH host, known or not: afterwards all are known exactly
      when they were as the document is read. */
  lemma NormalizedJumpsExactly(blank: string -> bool, d: Document)
    ensures JumpsAreKnown(Normalized(blank, d)) <==> JumpsReadAreKnown(d)
  {
    hide FirstHosts, FirstGroups, NormalHosts, WithLocal, NormalOrder, HostIds, KnownIds, KeptIds, JumpIsKnown,
      KeepsJump, JumpsReadAreKnown, Kept, GroupIds;
    var firsts, groups := FirstHosts(d.hosts), GroupIds(FirstGroups(d.groups));
    NormalizedNames(blank, d);
    NormalJumps(blank, groups, WithLocal(firsts), KnownIds(d));
    LocalKeepsNoJump(firsts, KnownIds(d));
    FirstJumps(d);
  }

  /** The smallest document that keeps such a reference. */
  lemma UnknownJumpStays(blank: string -> bool, host: Host)
    requires host.id != "" && KeepsJump(host) && host.connection.jumpHostId.Some?
    requires host.connection.jumpHostId.value != host.id && host.connection.jumpHostId.value != LOCAL_HOST_ID
    ensures !JumpsAreKnown(Normalized(blank, Document([], [], [host])))
  {
    hide Normalized, JumpsAreKnown;
    var d := Document([], [], [host]);
    NormalizedJumpsExactly(blank, d);
    assert d.hosts[0] == host && IsFirst(d.hosts, 0);
    assert HostIds(d.hosts) == {host.id};
  }

  lemma UpsertKeepsJumpsExactly(d: Document, host: Host)
    requires AreUnique(d.hosts) && JumpsAreKnown(d)
    ensures JumpsAreKnown(Upserted(d, host)) <==> JumpIsKnown(HostIds(d.hosts) + {host.id}, host)
  {
    PlacedIs(d.hosts, host);
    hide Placed, HostIds, AreUnique;
  }

  lemma RemoveKeepsJumps(d: Document, id: string)
    requires AreUnique(d.hosts) && JumpsAreKnown(d)
    ensures JumpsAreKnown(Removed(d, id).document)
  {
    var i := IndexOf(d.hosts, id);
    if id != LOCAL_HOST_ID && i < |d.hosts| {
      var rest := d.hosts[..i] + d.hosts[i + 1..];
      DroppedHost(d.hosts, i);
      DroppedIds(d.hosts, rest, id);
      JumpsCleared(rest, id);
      ClearedJumpsAreKnown(d, rest, id);
    }
  }

  lemma ClearedJumpsAreKnown(d: Document, rest: seq<Host>, id: string)
    requires JumpsAreKnown(d) && forall host :: host in rest ==> host in d.hosts
    ensures forall host :: host in WithoutJumps(rest, id) ==> JumpIsKnown(HostIds(d.hosts) - {id}, host)
  {
    hide HostIds;
    var next := WithoutJumps(rest, id);
    assert |next| == |rest|;
    forall j | 0 <= j < |rest|
      ensures JumpIsKnown(HostIds(d.hosts) - {id}, next[j])
    {
      assert rest[j] in rest && next[j] == WithoutJump(rest[j], id);
      assert JumpIsKnown(HostIds(d.hosts), rest[j]);
    }
  }

  ghost predicate JumpsKnownThroughout(d: Document, steps: seq<Step>) {
    && JumpsAreKnown(Run(d, steps))
    && (steps != [] ==> JumpsKnownThroughout(d, steps[..|steps| - 1]))
  }

  /** Every host that is added refers to one that is there by then, or to itself. */
  predicate JumpsFit(d: Document, steps: seq<Step>) {
    steps != [] ==>
      var before, last := steps[..|steps| - 1], steps[|steps| - 1];
      && JumpsFit(d, before)
      && (last.Upsert? ==> JumpIsKnown(HostIds(Run(d, before).hosts) + {last.host.id}, last.host))
  }

  lemma {:induction false} UniqueInRuns(d: Document, steps: seq<Step>)
    requires AreUnique(d.hosts)
    ensures AreUnique(Run(d, steps).hosts)
    decreases |steps|
  {
    hide AreUnique, Upserted, Removed;
    if steps != [] {
      UniqueInRuns(d, steps[..|steps| - 1]);
      UniqueAfter(Run(d, steps[..|steps| - 1]), steps[|steps| - 1]);
    }
  }

  lemma UniqueAfter(d: Document, step: Step)
    requires AreUnique(d.hosts)
    ensures AreUnique(After(d, step).hosts)
  {
    hide AreUnique, Upserted, Removed;
    match step {
      case Upsert(host) => UpsertKeepsUnique(d, host);
      case Remove(id) => RemoveKeepsUnique(d, id);
    }
  }

  lemma UpsertKeepsUnique(d: Document, host: Host)
    requires AreUnique(d.hosts)
    ensures AreUnique(Upserted(d, host).hosts)
  {
    PlacedIs(d.hosts, host);
    hide Placed, AreUnique;
  }

  lemma RemoveKeepsUnique(d: Document, id: string)
    requires AreUnique(d.hosts)
    ensures AreUnique(Removed(d, id).document.hosts)
  {
    hide AreUnique, WithoutJumps;
    var i := IndexOf(d.hosts, id);
    if id != LOCAL_HOST_ID && i < |d.hosts| {
      DroppedHost(d.hosts, i);
      JumpsCleared(d.hosts[..i] + d.hosts[i + 1..], id);
    }
  }

  /** From the reading of a document on, through every run of upserts and removals, every jump reference
      names a host of the document, exactly when those read did and every host added fits. */
  lemma {:induction false} JumpsHoldInRuns(blank: string -> bool, read: Document, steps: seq<Step>)
    ensures var d := Normalized(blank, read);
      JumpsKnownThroughout(d, steps) <==> JumpsReadAreKnown(read) && JumpsFit(d, steps)
    decreases |steps|
  {
    hide Normalized, JumpsAreKnown, JumpsReadAreKnown, JumpIsKnown, HostIds, AreUnique, Upserted, Removed;
    var d := Normalized(blank, read);
    if steps == [] {
      NormalizedJumpsExactly(blank, read);
    } else {
      var before, last := steps[..|steps| - 1], steps[|steps| - 1];
      JumpsHoldInRuns(blank, read, before);
      var more := OnePass(blank, read);
      UniqueInRuns(d, before);
      if JumpsKnownThroughout(d, before) {
        match last {
          case Upsert(host) => UpsertKeepsJumpsExactly(Run(d, before), host);
          case Remove(id) => RemoveKeepsJumps(Run(d, before), id);
        }
      }
    }
  }

  // ---------------------------------------------------------------- the object

  class HostsFile {
    var groups: seq<Group>
    var order: seq<string>
    var hosts: seq<Host>

    constructor (read: Document)
      ensures Now() == read
    {
      groups, order, hosts := read.groups, read.order, read.hosts;
    }

    ghost function Now(): Document
      reads this
    {
      Document(groups, order, hosts)
    }

    method RetainFirstHosts()
      modifies this`hosts
      ensures hosts == FirstHosts(old(hosts))
    {
      var seen: set<string>, kept: seq<Host> := {}, [];
      for i := 0 to |hosts|
        invariant hosts == old(hosts)
        invariant kept == FirstHosts(hosts[..i]) && seen == HostIds(kept)
      {
        assert hosts[..i + 1][..i] == hosts[..i];
        if hosts[i].id != "" && hosts[i].id !in seen {
          seen := seen + {hosts[i].id};
          kept := kept + [hosts[i]];
        }
      }
      assert hosts[..|hosts|] == hosts;
      hosts := kept;
    }

    method RetainFirstGroups()
      modifies this`groups
      ensures groups == FirstGroups(old(groups))
    {
      var seen: set<string>, kept: seq<Group> := {}, [];
      for i := 0 to |groups|
        invariant groups == old(groups)
        invariant kept == FirstGroups(groups[..i]) && seen == GroupIds(kept)
      {
        assert groups[..i + 1][..i] == groups[..i];
        if groups[i].id != "" && groups[i].id !in seen {
          seen := seen + {groups[i].id};
          kept := kept + [groups[i]];
        }
      }
      assert groups[..|groups|] == groups;
      groups := kept;
    }

    /** Put every host in shape, in place. */
    method NormalizeHosts(blank: string -> bool, known: set<string>)
      modifies this`hosts
      ensures hosts == NormalHosts(blank, known, old(hosts))
    {
      hide NormalConnection, PlainTags;
      for i := 0 to |hosts|
        invariant |hosts| == |old(hosts)|
        invariant forall k :: 0 <= k < i ==> hosts[k] == NormalHost(blank, known, old(hosts)[k])
        invariant forall k :: i <= k < |hosts| ==> hosts[k] == old(hosts)[k]
      {
        var host := hosts[i];
        if host.id == LOCAL_HOST_ID {
          host := host.(connection := host.connection.(kind := Local), groupId := None);
        }
        if host.groupId.Some? && host.groupId.value !in known {
          host := host.(groupId := None);
        }
        host := host.(connection := NormalConnection(host.connection), tags := PlainTags(blank, host.tags));
        hosts := hosts[i := host];
      }
    }

    /** Append the ungrouped hosts that the order misses. */
    method AppendMissing()
      modifies this`order
      ensures order == WithMissing(old(order), hosts)
    {
      for i := 0 to |hosts|
        invariant order == WithMissing(old(order), hosts[..i])
      {
        assert hosts[..i + 1][..i] == hosts[..i];
        if hosts[i].groupId.None? && hosts[i].id !in order {
          order := order + [hosts[i].id];
        }
      }
      assert hosts[..|hosts|] == hosts;
    }

    method Normalize(blank: string -> bool)
      modifies this
      ensures Now() == Normalized(blank, old(Now()))
    {
      hide FirstHosts, FirstGroups, NormalHosts, WithMissing, Within, Outside, Dedup;
      RetainFirstHosts();
      if LOCAL_HOST_ID !in HostIds(hosts) {
        hosts := [LOCAL_HOST] + hosts;
      }
      RetainFirstGroups();
      NormalizeHosts(blank, GroupIds(groups));
      order := Within(order, HostIds(hosts));
      order := Dedup(order);
      AppendMissing();
      order := Outside(order, Grouped(hosts));
      order := Outside(order, {LOCAL_HOST_ID});
      order := [LOCAL_HOST_ID] + order;
    }

    method UpsertHost(host: Host)
      modifies this
      ensures Now() == Upserted(old(Now()), host)
    {
      hide WithMissing, Within, Ungrouped;
      var i := Position(host.id);
      hosts := if i < |hosts| then hosts[i := host] else hosts + [host];
      order := Within(order, Ungrouped(hosts));
      AppendMissing();
    }

    method Position(id: string) returns (i: nat)
      ensures i == IndexOf(hosts, id)
    {
      i := 0;
      while i < |hosts| && hosts[i].id != id
        invariant i <= |hosts| && forall k :: 0 <= k < i ==> hosts[k].id != id
      {
        i := i + 1;
      }
    }

    method RemoveHost(id: string) returns (removed: Option<Host>)
      modifies this
      ensures Removal(Now(), removed) == Removed(old(Now()), id)
    {
      hide Outside;
      if id == LOCAL_HOST_ID {
        return None;
      }
      var index := Position(id);
      if index == |hosts| {
        return None;
      }
      removed := Some(hosts[index]);
      hosts := hosts[..index] + hosts[index + 1..];
      order := Outside(order, {id});
      ghost var left := hosts;
      for i := 0 to |hosts|
        invariant |hosts| == |left| && groups == old(groups) && order == Outside(old(order), {id})
        invariant forall k :: 0 <= k < i ==> hosts[k] == WithoutJump(left[k], id)
        invariant forall k :: i <= k < |hosts| ==> hosts[k] == left[k]
      {
        if hosts[i].connection.jumpHostId == Some(id) {
          hosts := hosts[i := hosts[i].(connection := hosts[i].connection.(jumpHostId := None))];
        }
      }
      assert hosts == WithoutJumps(left, id);
    }
  }
}
