/** The part of the Redis server the queue relies on, as an immutable value:
    streams with consumer groups (pending-entry lists and registered
    consumers) and sets. Each function is one Redis command. */
module Store {
  import opened Wrappers
  import Decimal
  import Text
  import opened Resp

  /** The three fields every queue entry carries, as stored: text values. */
  datatype Fields = Fields(data: string, dedupKey: string, retryCount: string)

  /** A stream entry. Ids are the millisecond part of Redis ids; the sequence
      part is always 0 here. */
  datatype Entry = Entry(id: nat, fields: Fields)

  /** A delivered but unacknowledged entry, its owner and how long since it
      was last delivered. */
  datatype Pending = Pending(id: nat, owner: string, idle: nat, deliveries: nat)

  /** A consumer known to a group and how long it has been idle. */
  datatype Registration = Registration(name: string, idle: nat)

  datatype Group = Group(lastDelivered: nat, pel: seq<Pending>, consumers: seq<Registration>)

  datatype Stream = Stream(lastId: nat, entries: seq<Entry>, groups: map<string, Group>)

  datatype Store = Store(streams: map<string, Stream>, sets: map<string, set<string>>)

  /** The NOGROUP reply: the key or the group does not exist. */
  datatype StoreError = NoGroup(key: string, group: string)

  const EmptyStream: Stream := Stream(0, [], map[])

  // ---------------------------------------------------------------------
  // Entry ids on the wire

  /** `<ms>-<seq>` with sequence 0. */
  function IdText(id: nat): string {
    Decimal.Show(id) + "-0"
  }

  /** The entry an id argument names: `<ms>` or `<ms>-0`; any other text
      names no entry of this model. */
  function ParseId(s: string): Option<nat> {
    if '-' !in s then Decimal.ParseNat(s)
    else
      var i := Text.IndexOf(s, '-');
      if Decimal.ParseNat(s[i + 1..]) == Some(0) then Decimal.ParseNat(s[..i]) else None
  }

  lemma ParseIdText(id: nat)
    ensures ParseId(IdText(id)) == Some(id)
  {
    var s := IdText(id);
    var digits := Decimal.Show(id);
    assert s[|digits|] == '-';
    assert s[..|digits|] == digits;
    assert '-' !in digits;
    var i := Text.IndexOf(s, '-');
    assert i == |digits|;
    assert s[i + 1..] == "0";
    Decimal.ParseNatOfShow(id);
    assert Decimal.ParseNat("0") == Some(0);
  }

  // ---------------------------------------------------------------------
  // Sets

  function Members(s: Store, key: string): set<string> {
    if key in s.sets then s.sets[key] else {}
  }

  function SAdd(s: Store, key: string, m: string): (r: Store)
    ensures Members(r, key) == Members(s, key) + {m}
    ensures forall k :: k != key ==> Members(r, k) == Members(s, k)
    ensures r.streams == s.streams
  {
    s.(sets := s.sets[key := Members(s, key) + {m}])
  }

  function SRem(s: Store, key: string, m: string): (r: Store)
    ensures Members(r, key) == Members(s, key) - {m}
    ensures forall k :: k != key ==> Members(r, k) == Members(s, k)
    ensures r.streams == s.streams
  {
    s.(sets := s.sets[key := Members(s, key) - {m}])
  }

  // ---------------------------------------------------------------------
  // Streams

  function StreamAt(s: Store, key: string): Stream {
    if key in s.streams then s.streams[key] else EmptyStream
  }

  function WithStream(s: Store, key: string, st: Stream): (r: Store)
    ensures StreamAt(r, key) == st
    ensures forall k :: k != key ==> StreamAt(r, k) == StreamAt(s, k)
    ensures r.sets == s.sets
  {
    s.(streams := s.streams[key := st])
  }

  predicate HasGroup(s: Store, key: string, group: string) {
    key in s.streams && group in s.streams[key].groups
  }

  function GroupAt(s: Store, key: string, group: string): Group
    requires HasGroup(s, key, group)
  {
    s.streams[key].groups[group]
  }

  function WithGroup(s: Store, key: string, group: string, g: Group): (r: Store)
    requires HasGroup(s, key, group)
    ensures HasGroup(r, key, group) && GroupAt(r, key, group) == g
    ensures StreamAt(r, key).entries == StreamAt(s, key).entries
    ensures StreamAt(r, key).lastId == StreamAt(s, key).lastId
    ensures forall k :: k != key ==> StreamAt(r, k) == StreamAt(s, k)
    ensures forall k, h :: HasGroup(s, k, h) ==> HasGroup(r, k, h)
    ensures forall h :: h != group && HasGroup(s, key, h) ==> GroupAt(r, key, h) == GroupAt(s, key, h)
    ensures r.sets == s.sets
  {
    var st := s.streams[key];
    WithStream(s, key, st.(groups := st.groups[group := g]))
  }

  /** XADD key * ...: appends an entry with an id above every earlier one,
      creating the stream if needed. */
  function XAdd(s: Store, key: string, f: Fields): (r: (Store, nat))
    ensures r.1 == StreamAt(s, key).lastId + 1
    ensures key in r.0.streams
    ensures StreamAt(r.0, key) == StreamAt(s, key).(lastId := r.1, entries := StreamAt(s, key).entries + [Entry(r.1, f)])
    ensures forall k :: k != key ==> StreamAt(r.0, k) == StreamAt(s, k)
    ensures r.0.sets == s.sets
  {
    var st := StreamAt(s, key);
    var id := st.lastId + 1;
    (WithStream(s, key, st.(lastId := id, entries := st.entries + [Entry(id, f)])), id)
  }

  function WithoutEntry(entries: seq<Entry>, id: nat): (r: seq<Entry>)
    ensures forall e :: e in r <==> e in entries && e.id != id
    ensures |r| <= |entries|
    ensures |r| == |entries| <==> forall e :: e in entries ==> e.id != id
    ensures (forall e :: e in entries ==> e.id != id) ==> r == entries
    decreases |entries|
  {
    if entries == [] then []
    else if entries[0].id == id then WithoutEntry(entries[1..], id)
    else [entries[0]] + WithoutEntry(entries[1..], id)
  }

  /** XDEL key id: removes the entry; the reply is the number removed.
      The pending-entry lists are left alone, as in Redis. */
  function XDel(s: Store, key: string, idText: string): (r: (Store, nat))
    ensures r.1 > 0 <==> ParseId(idText).Some? && exists e :: e in StreamAt(s, key).entries && e.id == ParseId(idText).value
    ensures ParseId(idText).Some? ==>
              forall e :: e in StreamAt(r.0, key).entries <==> e in StreamAt(s, key).entries && e.id != ParseId(idText).value
    ensures ParseId(idText).None? ==> r.0 == s
    ensures StreamAt(r.0, key).groups == StreamAt(s, key).groups
    ensures StreamAt(r.0, key).lastId == StreamAt(s, key).lastId
    ensures forall k :: k != key ==> StreamAt(r.0, k) == StreamAt(s, k)
    ensures r.0.sets == s.sets
  {
    if key !in s.streams || ParseId(idText).None? then (s, 0)
    else
      var st := s.streams[key];
      var kept := WithoutEntry(st.entries, ParseId(idText).value);
      (WithStream(s, key, st.(entries := kept)), |st.entries| - |kept|)
  }

  function WithoutPending(pel: seq<Pending>, id: nat): (r: seq<Pending>)
    ensures forall p :: p in r <==> p in pel && p.id != id
    ensures (forall p :: p in pel ==> p.id != id) ==> r == pel
    decreases |pel|
  {
    if pel == [] then []
    else if pel[0].id == id then WithoutPending(pel[1..], id)
    else [pel[0]] + WithoutPending(pel[1..], id)
  }

  /** XACK key group id: the entry leaves the group's pending list; a missing
      key or group acknowledges nothing. */
  function XAck(s: Store, key: string, group: string, idText: string): (r: Store)
    ensures HasGroup(s, key, group) && ParseId(idText).Some? ==>
              HasGroup(r, key, group) &&
              forall p :: p in GroupAt(r, key, group).pel <==> p in GroupAt(s, key, group).pel && p.id != ParseId(idText).value
    ensures HasGroup(s, key, group) ==>
              && HasGroup(r, key, group)
              && GroupAt(r, key, group).lastDelivered == GroupAt(s, key, group).lastDelivered
              && GroupAt(r, key, group).consumers == GroupAt(s, key, group).consumers
    ensures forall h :: h != group && HasGroup(s, key, h) ==> HasGroup(r, key, h) && GroupAt(r, key, h) == GroupAt(s, key, h)
    ensures !HasGroup(s, key, group) || ParseId(idText).None? ==> r == s
    ensures StreamAt(r, key).entries == StreamAt(s, key).entries
    ensures StreamAt(r, key).lastId == StreamAt(s, key).lastId
    ensures forall k :: k != key ==> StreamAt(r, k) == StreamAt(s, k)
    ensures forall k, h :: HasGroup(s, k, h) <==> HasGroup(r, k, h)
    ensures r.sets == s.sets
  {
    if !HasGroup(s, key, group) || ParseId(idText).None? then s
    else
      var g := GroupAt(s, key, group);
      WithGroup(s, key, group, g.(pel := WithoutPending(g.pel, ParseId(idText).value)))
  }

  /** XGROUP CREATE key group 0 MKSTREAM; an existing group (BUSYGROUP) is
      left as it is. */
  function XGroupCreate(s: Store, key: string, group: string): (r: Store)
    ensures HasGroup(r, key, group)
    ensures HasGroup(s, key, group) ==> r == s
    ensures StreamAt(r, key).entries == StreamAt(s, key).entries
    ensures r.sets == s.sets
  {
    if HasGroup(s, key, group) then s
    else
      var st := StreamAt(s, key);
      WithStream(s, key, st.(groups := st.groups[group := Group(0, [], [])]))
  }

  // ---------------------------------------------------------------------
  // Consumers and their pending entries

  /** The pending entries a consumer owns, in id order. */
  function Owned(pel: seq<Pending>, name: string): (r: seq<Pending>)
    ensures forall p :: p in r <==> p in pel && p.owner == name
    ensures |r| <= |pel|
    decreases |pel|
  {
    if pel == [] then []
    else if pel[0].owner == name then [pel[0]] + Owned(pel[1..], name)
    else Owned(pel[1..], name)
  }

  function PendingCount(g: Group, name: string): nat {
    |Owned(g.pel, name)|
  }

  lemma PendingCountZero(pel: seq<Pending>, name: string)
    ensures |Owned(pel, name)| == 0 <==> forall p :: p in pel ==> p.owner != name
  {
    if |Owned(pel, name)| != 0 {
      assert Owned(pel, name)[0] in Owned(pel, name);
    }
  }

  function Names(regs: seq<Registration>): set<string> {
    set x | x in regs :: x.name
  }

  /** A group registers each consumer name once. */
  predicate UniqueNames(regs: seq<Registration>) {
    forall i, j :: 0 <= i < j < |regs| ==> regs[i].name != regs[j].name
  }

  /** The consumer is known to the group and marked as just seen. */
  function Seen(regs: seq<Registration>, name: string): (r: seq<Registration>)
    ensures Names(r) == Names(regs) + {name}
    decreases |regs|
  {
    if regs == [] then [Registration(name, 0)]
    else
      NamesCons(regs[0], regs[1..]);
      assert regs == [regs[0]] + regs[1..];
      if regs[0].name == name then
        NamesCons(Registration(name, 0), regs[1..]);
        [Registration(name, 0)] + regs[1..]
      else
        NamesCons(regs[0], Seen(regs[1..], name));
        [regs[0]] + Seen(regs[1..], name)
  }

  lemma NamesCons(x: Registration, rest: seq<Registration>)
    ensures Names([x] + rest) == {x.name} + Names(rest)
  {
    var l := [x] + rest;
    forall n | n in Names(l) ensures n in {x.name} + Names(rest) {
      var y :| y in l && y.name == n;
      if y != x { assert y in rest; }
    }
    forall n | n in {x.name} + Names(rest) ensures n in Names(l) {
      if n == x.name { assert x in l; }
      else { var y :| y in rest && y.name == n; assert y in l; }
    }
  }

  function WithoutRegistration(regs: seq<Registration>, name: string): (r: seq<Registration>)
    ensures forall x :: x in r <==> x in regs && x.name != name
    decreases |regs|
  {
    if regs == [] then []
    else if regs[0].name == name then WithoutRegistration(regs[1..], name)
    else [regs[0]] + WithoutRegistration(regs[1..], name)
  }

  function WithoutOwner(pel: seq<Pending>, name: string): (r: seq<Pending>)
    ensures forall p :: p in r <==> p in pel && p.owner != name
    ensures (forall p :: p in pel ==> p.owner != name) ==> r == pel
    decreases |pel|
  {
    if pel == [] then []
    else if pel[0].owner == name then WithoutOwner(pel[1..], name)
    else [pel[0]] + WithoutOwner(pel[1..], name)
  }

  /** One XINFO CONSUMERS record. */
  datatype ConsumerStat = ConsumerStat(name: string, pending: nat, idle: nat)

  function Stats(g: Group, regs: seq<Registration>): (r: seq<ConsumerStat>)
    ensures |r| == |regs|
    ensures forall i :: 0 <= i < |regs| ==> r[i] == ConsumerStat(regs[i].name, PendingCount(g, regs[i].name), regs[i].idle)
  {
    seq(|regs|, i requires 0 <= i < |regs| => ConsumerStat(regs[i].name, PendingCount(g, regs[i].name), regs[i].idle))
  }

  /** XINFO CONSUMERS key group. */
  function XInfoConsumers(s: Store, key: string, group: string): (r: Result<seq<ConsumerStat>, StoreError>)
    ensures r.Success? <==> HasGroup(s, key, group)
    ensures r.Success? ==> r.value == Stats(GroupAt(s, key, group), GroupAt(s, key, group).consumers)
  {
    if !HasGroup(s, key, group) then Failure(NoGroup(key, group))
    else
      var g := GroupAt(s, key, group);
      Success(Stats(g, g.consumers))
  }

  /** XGROUP DELCONSUMER key group name: the registration goes, and with it
      whatever the consumer still had pending. */
  function XGroupDelConsumer(s: Store, key: string, group: string, name: string): (r: Store)
    requires HasGroup(s, key, group)
    ensures HasGroup(r, key, group)
    ensures StreamAt(r, key).entries == StreamAt(s, key).entries
    ensures forall k :: k != key ==> StreamAt(r, k) == StreamAt(s, k)
    ensures r.sets == s.sets
    ensures GroupAt(r, key, group) == GroupAt(s, key, group).(
              pel := WithoutOwner(GroupAt(s, key, group).pel, name),
              consumers := WithoutRegistration(GroupAt(s, key, group).consumers, name))
    ensures StreamAt(r, key).lastId == StreamAt(s, key).lastId
    ensures forall h :: HasGroup(s, key, h) ==> HasGroup(r, key, h)
    ensures forall h :: h != group && HasGroup(s, key, h) ==> GroupAt(r, key, h) == GroupAt(s, key, h)
  {
    var g := GroupAt(s, key, group);
    WithGroup(s, key, group, g.(pel := WithoutOwner(g.pel, name), consumers := WithoutRegistration(g.consumers, name)))
  }

  /** At most `count` items; a count of 0 sets no limit, as in Redis. */
  function Take<T>(xs: seq<T>, count: nat): (r: seq<T>)
    ensures count == 0 || |xs| <= count ==> r == xs
    ensures count > 0 && |xs| > count ==> r == xs[..count]
  {
    if count == 0 || |xs| <= count then xs else xs[..count]
  }

  // ---------------------------------------------------------------------
  // Reading

  function FieldsReply(f: Fields): Reply {
    Array([Bulk("data"), Bulk(f.data), Bulk("dedupKey"), Bulk(f.dedupKey), Bulk("retryCount"), Bulk(f.retryCount)])
  }

  function Lookup(entries: seq<Entry>, id: nat): (r: Option<Fields>)
    ensures r.Some? ==> Entry(id, r.value) in entries
    ensures r.None? ==> forall e :: e in entries ==> e.id != id
    decreases |entries|
  {
    if entries == [] then None
    else if entries[0].id == id then Some(entries[0].fields)
    else Lookup(entries[1..], id)
  }

  /** A message of an XREADGROUP reply; an entry deleted while still pending
      comes back with nil fields. */
  function MessageReply(entries: seq<Entry>, id: nat): Reply {
    match Lookup(entries, id)
    case Some(f) => Array([Bulk(IdText(id)), FieldsReply(f)])
    case None => Array([Bulk(IdText(id)), Nil])
  }

  /** A pending item delivered again by a history read: its idle time
      restarts and its delivery count goes up, but only while its entry is
      still stored; an item whose entry was deleted comes back with nil
      fields and is left as it was. */
  function Touch(p: Pending, entries: seq<Entry>): (r: Pending)
    ensures r.id == p.id && r.owner == p.owner
  {
    if Lookup(entries, p.id).Some? then p.(idle := 0, deliveries := p.deliveries + 1) else p
  }

  /** The pending list after a history read of `count` of `name`'s items
      (all of them when `count` is 0): see RedeliverReadsOwn. */
  function Redeliver(pel: seq<Pending>, name: string, count: nat, entries: seq<Entry>): (r: seq<Pending>)
    ensures |r| == |pel|
    ensures forall i :: 0 <= i < |pel| ==> r[i].id == pel[i].id && r[i].owner == pel[i].owner
    ensures forall i :: 0 <= i < |pel| && pel[i].owner != name ==> r[i] == pel[i]
    decreases |pel|
  {
    if pel == [] then []
    else if pel[0].owner == name then
      if count == 1 then [Touch(pel[0], entries)] + pel[1..]
      else [Touch(pel[0], entries)] + Redeliver(pel[1..], name, if count == 0 then 0 else count - 1, entries)
    else [pel[0]] + Redeliver(pel[1..], name, count, entries)
  }

  /** The history read delivers again exactly what it returns: the k-th of
      the consumer's pending items is touched when k is below COUNT (or
      COUNT is 0), and every other item is left as it was. */
  lemma {:induction false} RedeliverReadsOwn(pel: seq<Pending>, name: string, count: nat, entries: seq<Entry>)
    ensures ReadPrefix(Owned(pel, name), Owned(Redeliver(pel, name, count, entries), name), count, entries)
    decreases |pel|
  {
    if pel != [] {
      var r := Redeliver(pel, name, count, entries);
      assert pel == [pel[0]] + pel[1..];
      OwnedCons(pel[0], pel[1..], name);
      if pel[0].owner == name {
        var p := Touch(pel[0], entries);
        if count == 1 {
          assert r == [p] + pel[1..];
          OwnedCons(p, pel[1..], name);
          ReadFirstOnly(pel[0], Owned(pel[1..], name), entries);
        } else {
          var c' := if count == 0 then 0 else count - 1;
          var rest := Redeliver(pel[1..], name, c', entries);
          RedeliverReadsOwn(pel[1..], name, c', entries);
          assert r == [p] + rest;
          OwnedCons(p, rest, name);
          ReadShift(pel[0], Owned(pel[1..], name), Owned(rest, name), count, entries);
        }
      } else {
        var rest := Redeliver(pel[1..], name, count, entries);
        RedeliverReadsOwn(pel[1..], name, count, entries);
        assert r == [pel[0]] + rest;
        OwnedCons(pel[0], rest, name);
      }
    }
  }

  /** `after` is `before` with its first `count` items touched (all of
      them when `count` is 0). */
  predicate ReadPrefix(before: seq<Pending>, after: seq<Pending>, count: nat, entries: seq<Entry>) {
    && |after| == |before|
    && forall k :: 0 <= k < |before| ==>
         after[k] == if count == 0 || k < count then Touch(before[k], entries) else before[k]
  }

  lemma ReadFirstOnly(a: Pending, tail: seq<Pending>, entries: seq<Entry>)
    ensures ReadPrefix([a] + tail, [Touch(a, entries)] + tail, 1, entries)
  {
    forall k | 1 <= k < |tail| + 1
      ensures ([Touch(a, entries)] + tail)[k] == ([a] + tail)[k]
    {
    }
  }

  lemma ReadShift(a: Pending, tail: seq<Pending>, tail': seq<Pending>, count: nat, entries: seq<Entry>)
    requires count != 1
    requires ReadPrefix(tail, tail', if count == 0 then 0 else count - 1, entries)
    ensures ReadPrefix([a] + tail, [Touch(a, entries)] + tail', count, entries)
  {
    var before, after := [a] + tail, [Touch(a, entries)] + tail';
    forall k | 1 <= k < |before|
      ensures after[k] == if count == 0 || k < count then Touch(before[k], entries) else before[k]
    {
      assert after[k] == tail'[k - 1] && before[k] == tail[k - 1];
    }
  }

  /** A consumer's items in a joined list are its items in each part. */
  lemma {:induction false} OwnedAppend(a: seq<Pending>, b: seq<Pending>, name: string)
    ensures Owned(a + b, name) == Owned(a, name) + Owned(b, name)
    decreases |a|
  {
    if a != [] {
      OwnedAppend(a[1..], b, name);
      assert (a + b)[1..] == a[1..] + b;
    } else {
      assert a + b == b;
    }
  }

  lemma OwnedCons(p: Pending, pel: seq<Pending>, name: string)
    ensures Owned([p] + pel, name) == if p.owner == name then [p] + Owned(pel, name) else Owned(pel, name)
  {
    assert ([p] + pel)[1..] == pel;
  }

  /** XREADGROUP GROUP group name COUNT count STREAMS key 0: the consumer's
      own pending entries, oldest first. The read registers the consumer
      and delivers the entries it returns again. */
  function XReadGroupHistory(s: Store, key: string, group: string, name: string, count: nat): (r: Result<(Store, Reply), StoreError>)
    ensures r.Success? <==> HasGroup(s, key, group)
    ensures r.Success? ==>
              var mine := Take(Owned(GroupAt(s, key, group).pel, name), count);
              r.value.1 == Array([Array([Bulk(key), Array(seq(|mine|, i requires 0 <= i < |mine| =>
                                                                MessageReply(s.streams[key].entries, mine[i].id)))])])
    ensures r.Success? ==>
              var g, s' := GroupAt(s, key, group), r.value.0;
              && HasGroup(s', key, group)
              && GroupAt(s', key, group).lastDelivered == g.lastDelivered
              && GroupAt(s', key, group).consumers == Seen(g.consumers, name)
              && GroupAt(s', key, group).pel == Redeliver(g.pel, name, count, StreamAt(s, key).entries)
              && StreamAt(s', key).entries == StreamAt(s, key).entries
              && StreamAt(s', key).lastId == StreamAt(s, key).lastId
              && (forall k :: k != key ==> StreamAt(s', k) == StreamAt(s, k))
              && (forall h :: h != group && HasGroup(s, key, h) ==> HasGroup(s', key, h) && GroupAt(s', key, h) == GroupAt(s, key, h))
              && s'.sets == s.sets
  {
    if !HasGroup(s, key, group) then Failure(NoGroup(key, group))
    else
      var g := GroupAt(s, key, group);
      var mine := Take(Owned(g.pel, name), count);
      var messages := seq(|mine|, i requires 0 <= i < |mine| => MessageReply(s.streams[key].entries, mine[i].id));
      var g' := Group(g.lastDelivered, Redeliver(g.pel, name, count, s.streams[key].entries), Seen(g.consumers, name));
      Success((WithGroup(s, key, group, g'), Array([Array([Bulk(key), Array(messages)])])))
  }

  function Undelivered(entries: seq<Entry>, after: nat): (r: seq<Entry>)
    ensures forall e :: e in r <==> e in entries && e.id > after
    decreases |entries|
  {
    if entries == [] then []
    else if entries[0].id > after then [entries[0]] + Undelivered(entries[1..], after)
    else Undelivered(entries[1..], after)
  }

  function NewPending(delivered: seq<Entry>, name: string): (r: seq<Pending>)
    ensures |r| == |delivered|
    ensures forall i :: 0 <= i < |r| ==> r[i] == Pending(delivered[i].id, name, 0, 1)
  {
    seq(|delivered|, i requires 0 <= i < |delivered| => Pending(delivered[i].id, name, 0, 1))
  }

  /** XREADGROUP GROUP group name COUNT count STREAMS key >: entries never
      delivered to the group go to this consumer's pending list. */
  function XReadGroupNew(s: Store, key: string, group: string, name: string, count: nat): (r: Result<(Store, seq<Entry>), StoreError>)
    ensures r.Success? <==> HasGroup(s, key, group)
    ensures r.Success? ==>
              && r.value.1 == Take(Undelivered(s.streams[key].entries, GroupAt(s, key, group).lastDelivered), count)
              && HasGroup(r.value.0, key, group)
              && GroupAt(r.value.0, key, group).pel == GroupAt(s, key, group).pel + NewPending(r.value.1, name)
    // the group's mark moves to the last entry delivered, and the reader is registered
    ensures r.Success? ==>
              var g, s', delivered := GroupAt(s, key, group), r.value.0, r.value.1;
              && HasGroup(s', key, group)
              && GroupAt(s', key, group).lastDelivered == (if delivered == [] then g.lastDelivered else delivered[|delivered| - 1].id)
              && GroupAt(s', key, group).consumers == Seen(g.consumers, name)
              && StreamAt(s', key).entries == StreamAt(s, key).entries
              && StreamAt(s', key).lastId == StreamAt(s, key).lastId
              && (forall k :: k != key ==> StreamAt(s', k) == StreamAt(s, k))
              && (forall h :: h != group && HasGroup(s, key, h) ==> HasGroup(s', key, h) && GroupAt(s', key, h) == GroupAt(s, key, h))
              && s'.sets == s.sets
  {
    if !HasGroup(s, key, group) then Failure(NoGroup(key, group))
    else
      var g := GroupAt(s, key, group);
      var delivered := Take(Undelivered(s.streams[key].entries, g.lastDelivered), count);
      var last := if delivered == [] then g.lastDelivered else delivered[|delivered| - 1].id;
      var g' := Group(last, g.pel + NewPending(delivered, name), Seen(g.consumers, name));
      Success((WithGroup(s, key, group, g'), delivered))
  }

  /** Ids strictly increase along the entries. */
  predicate IdsAscending(u: seq<Entry>) {
    forall i, j :: 0 <= i < j < |u| ==> u[i].id < u[j].id
  }

  /** Stream ids strictly increase along the stream and stay within its
      last id, as XADD keeps them. */
  predicate Ascending(st: Stream) {
    && IdsAscending(st.entries)
    && forall i :: 0 <= i < |st.entries| ==> st.entries[i].id <= st.lastId
  }

  lemma XAddKeepsAscending(s: Store, key: string, f: Fields)
    requires Ascending(StreamAt(s, key))
    ensures Ascending(StreamAt(XAdd(s, key, f).0, key))
  {
  }

  lemma {:induction false} UndeliveredAscending(entries: seq<Entry>, after: nat)
    requires IdsAscending(entries)
    ensures IdsAscending(Undelivered(entries, after))
    decreases |entries|
  {
    if entries != [] {
      TailAscending(entries);
      UndeliveredAscending(entries[1..], after);
      if entries[0].id > after {
        var rest := Undelivered(entries[1..], after);
        forall e | e in rest ensures entries[0].id < e.id {
          var j :| 0 <= j < |entries[1..]| && entries[1..][j] == e;
          assert entries[j + 1] == e;
        }
        ConsAscending(entries[0], rest);
      }
    }
  }

  lemma TailAscending(u: seq<Entry>)
    requires IdsAscending(u) && u != []
    ensures IdsAscending(u[1..])
  {
    forall i, j | 0 <= i < j < |u[1..]| ensures u[1..][i].id < u[1..][j].id {
      assert u[1..][i] == u[i + 1] && u[1..][j] == u[j + 1];
    }
  }

  lemma ConsAscending(x: Entry, rest: seq<Entry>)
    requires IdsAscending(rest)
    requires forall e :: e in rest ==> x.id < e.id
    ensures IdsAscending([x] + rest)
  {
    var u := [x] + rest;
    forall i, j | 0 <= i < j < |u| ensures u[i].id < u[j].id {
      assert u[j] == rest[j - 1] && rest[j - 1] in rest;
      if i > 0 {
        assert u[i] == rest[i - 1];
      }
    }
  }

  /** In an ascending stream, the entries after an entry that was itself
      undelivered are the ones following it among the undelivered. */
  lemma {:induction false} UndeliveredAfter(u: seq<Entry>, n: nat)
    requires IdsAscending(u)
    requires 0 < n <= |u|
    ensures Undelivered(u, u[n - 1].id) == u[n..]
    decreases |u|
  {
    if n == 1 {
      AllAbove(u[1..], u[0].id);
      assert u[1..] == u[n..];
    } else {
      TailAscending(u);
      UndeliveredAfter(u[1..], n - 1);
      assert u[1..][n - 2] == u[n - 1];
      assert u[1..][n - 1..] == u[n..];
    }
  }

  lemma {:induction false} AllAbove(u: seq<Entry>, bound: nat)
    requires forall i :: 0 <= i < |u| ==> u[i].id > bound
    ensures Undelivered(u, bound) == u
    decreases |u|
  {
    if u != [] {
      AllAbove(u[1..], bound);
      assert u == [u[0]] + u[1..];
    }
  }

  /** Undelivered entries stay undelivered when the mark stays below them. */
  lemma {:induction false} UndeliveredTwice(entries: seq<Entry>, a: nat, b: nat)
    requires a <= b
    ensures Undelivered(Undelivered(entries, a), b) == Undelivered(entries, b)
    decreases |entries|
  {
    if entries != [] {
      UndeliveredTwice(entries[1..], a, b);
      if entries[0].id > a {
        var rest := Undelivered(entries[1..], a);
        assert ([entries[0]] + rest)[1..] == rest;
      }
    }
  }

  /** A `>` read never hands out an entry twice: in an ascending stream the
      entries still undelivered after the read are those undelivered before
      it less the ones it delivered. */
  lemma NoRedelivery(s: Store, key: string, group: string, name: string, count: nat)
    requires HasGroup(s, key, group) && Ascending(StreamAt(s, key))
    ensures var r := XReadGroupNew(s, key, group, name, count).value;
            var before := Undelivered(StreamAt(s, key).entries, GroupAt(s, key, group).lastDelivered);
            && before == r.1 + before[|r.1|..]
            && Undelivered(StreamAt(r.0, key).entries, GroupAt(r.0, key, group).lastDelivered) == before[|r.1|..]
  {
    var r := XReadGroupNew(s, key, group, name, count).value;
    ReadAdvances(StreamAt(s, key).entries, GroupAt(s, key, group).lastDelivered, count, r.1, GroupAt(r.0, key, group).lastDelivered);
  }

  /** Reading `d`, the first `count` undelivered entries, and moving the
      mark to `m`, the last of them, leaves the rest undelivered. */
  lemma ReadAdvances(entries: seq<Entry>, a: nat, count: nat, d: seq<Entry>, m: nat)
    requires IdsAscending(entries)
    requires d == Take(Undelivered(entries, a), count)
    requires m == if d == [] then a else d[|d| - 1].id
    ensures var before := Undelivered(entries, a);
            && before == d + before[|d|..]
            && Undelivered(entries, m) == before[|d|..]
  {
    var before := Undelivered(entries, a);
    UndeliveredAscending(entries, a);
    assert before == d + before[|d|..];
    if d != [] {
      var n := |d|;
      assert d[n - 1] == before[n - 1];
      UndeliveredAfter(before, n);
      assert before[n - 1] in before;
      UndeliveredTwice(entries, a, before[n - 1].id);
    }
  }

  // ---------------------------------------------------------------------
  // Pending entries: listing and claiming

  function PendingReply(p: Pending): Reply {
    Array([Bulk(IdText(p.id)), Bulk(p.owner), Integer(p.idle), Integer(p.deliveries)])
  }

  /** XPENDING key group - + count name: the consumer's pending entries in
      the detailed form, oldest first. */
  function XPendingOf(s: Store, key: string, group: string, count: nat, name: string): (r: Result<Reply, StoreError>)
    ensures r.Success? <==> HasGroup(s, key, group)
    ensures r.Success? ==>
              var mine := Take(Owned(GroupAt(s, key, group).pel, name), count);
              r.value == Array(seq(|mine|, i requires 0 <= i < |mine| => PendingReply(mine[i])))
  {
    if !HasGroup(s, key, group) then Failure(NoGroup(key, group))
    else
      var mine := Take(Owned(GroupAt(s, key, group).pel, name), count);
      Success(Array(seq(|mine|, i requires 0 <= i < |mine| => PendingReply(mine[i]))))
  }

  /** Hands one pending entry to `name` if it has been idle at least
      `minIdle`; JUSTID leaves its delivery count alone. */
  function ClaimOne(pel: seq<Pending>, id: nat, name: string, minIdle: int): (r: (seq<Pending>, bool))
    ensures |r.0| == |pel|
    ensures forall i :: 0 <= i < |pel| ==>
              if pel[i].id == id && pel[i].idle >= minIdle
              then r.0[i] == pel[i].(owner := name, idle := 0)
              else r.0[i] == pel[i]
    ensures r.1 <==> exists i :: 0 <= i < |pel| && pel[i].id == id && pel[i].idle >= minIdle
  {
    var out := seq(|pel|, i requires 0 <= i < |pel| =>
                 if pel[i].id == id && pel[i].idle >= minIdle then pel[i].(owner := name, idle := 0) else pel[i]);
    (out, exists i :: 0 <= i < |pel| && pel[i].id == id && pel[i].idle >= minIdle)
  }

  /** The claims of XCLAIM, one id argument after the other. */
  function ClaimAll(pel: seq<Pending>, ids: seq<string>, name: string, minIdle: int): (r: (seq<Pending>, seq<nat>))
    ensures |r.0| == |pel|
    ensures |r.1| <= |ids|
    ensures forall i :: 0 <= i < |pel| ==> r.0[i].id == pel[i].id && r.0[i].deliveries == pel[i].deliveries
    ensures forall i :: 0 <= i < |pel| ==> r.0[i] == pel[i] || r.0[i].owner == name
    decreases |ids|
  {
    if ids == [] then (pel, [])
    else
      match ParseId(ids[0])
      case None => ClaimAll(pel, ids[1..], name, minIdle)
      case Some(id) =>
        var (pel1, claimed) := ClaimOne(pel, id, name, minIdle);
        var (pel2, rest) := ClaimAll(pel1, ids[1..], name, minIdle);
        (pel2, if claimed then [id] + rest else rest)
  }

  /** XCLAIM key group name minIdle id... JUSTID: the reply lists the ids
      that changed hands. With no id argument nothing is claimed (Redis then
      reads JUSTID as an option). */
  function XClaim(s: Store, key: string, group: string, name: string, minIdle: int, ids: seq<string>): (r: Result<(Store, seq<nat>), StoreError>)
    ensures r.Success? <==> HasGroup(s, key, group)
    ensures r.Success? ==>
              && HasGroup(r.value.0, key, group)
              && StreamAt(r.value.0, key).entries == StreamAt(s, key).entries
              && StreamAt(r.value.0, key).lastId == StreamAt(s, key).lastId
              && (forall k :: k != key ==> StreamAt(r.value.0, k) == StreamAt(s, k))
              && r.value.0.sets == s.sets
              && Names(GroupAt(r.value.0, key, group).consumers) == Names(GroupAt(s, key, group).consumers) + {name}
              && r.value.1 == ClaimAll(GroupAt(s, key, group).pel, ids, name, minIdle).1
              && GroupAt(r.value.0, key, group).pel == ClaimAll(GroupAt(s, key, group).pel, ids, name, minIdle).0
  {
    if !HasGroup(s, key, group) then Failure(NoGroup(key, group))
    else
      var g := GroupAt(s, key, group);
      var (pel, claimed) := ClaimAll(g.pel, ids, name, minIdle);
      Success((WithGroup(s, key, group, g.(pel := pel, consumers := Seen(g.consumers, name))), claimed))
  }

  // ---------------------------------------------------------------------
  // What a claim does, entry by entry

  /** Redis keys a pending-entry list by id: no id appears twice. */
  predicate UniqueIds(pel: seq<Pending>) {
    forall i, j :: 0 <= i < |pel| && 0 <= j < |pel| && pel[i].id == pel[j].id ==> i == j
  }

  predicate Distinct(xs: seq<nat>) {
    forall a, b :: 0 <= a < b < |xs| ==> xs[a] != xs[b]
  }

  function Ids(pel: seq<Pending>): (xs: seq<nat>)
    ensures |xs| == |pel| && forall i :: 0 <= i < |pel| ==> xs[i] == pel[i].id
  {
    seq(|pel|, i requires 0 <= i < |pel| => pel[i].id)
  }

  function Texts(xs: seq<nat>): (ts: seq<string>)
    ensures |ts| == |xs| && forall i :: 0 <= i < |xs| ==> ts[i] == IdText(xs[i])
  {
    seq(|xs|, i requires 0 <= i < |xs| => IdText(xs[i]))
  }

  /** Some entry with this id has been idle at least `minIdle`. */
  predicate Ripe(pel: seq<Pending>, id: nat, minIdle: int) {
    exists i :: 0 <= i < |pel| && pel[i].id == id && pel[i].idle >= minIdle
  }

  /** The ids of `xs` that are ripe, in order. */
  function Ripened(pel: seq<Pending>, xs: seq<nat>, minIdle: int): (r: seq<nat>)
    ensures |r| <= |xs|
    ensures forall x :: x in r <==> x in xs && Ripe(pel, x, minIdle)
    decreases |xs|
  {
    if xs == [] then []
    else (if Ripe(pel, xs[0], minIdle) then [xs[0]] else []) + Ripened(pel, xs[1..], minIdle)
  }

  lemma RipenedAgree(p1: seq<Pending>, p2: seq<Pending>, xs: seq<nat>, minIdle: int)
    requires forall x :: x in xs ==> (Ripe(p1, x, minIdle) <==> Ripe(p2, x, minIdle))
    ensures Ripened(p1, xs, minIdle) == Ripened(p2, xs, minIdle)
    decreases |xs|
  {
    if xs != [] {
      RipenedAgree(p1, p2, xs[1..], minIdle);
    }
  }

  /** Claiming distinct ids hands over exactly the entries those ids name
      that have been idle long enough, resets their idle time, and reports
      exactly their ids. */
  lemma {:induction false} ClaimAllExact(pel: seq<Pending>, xs: seq<nat>, name: string, minIdle: int)
    requires Distinct(xs)
    ensures var r := ClaimAll(pel, Texts(xs), name, minIdle);
            && r.1 == Ripened(pel, xs, minIdle)
            && forall i :: 0 <= i < |pel| ==>
                 r.0[i] == if pel[i].id in xs && pel[i].idle >= minIdle then pel[i].(owner := name, idle := 0) else pel[i]
    decreases |xs|
  {
    if xs != [] {
      var (pel1, claimed) := ClaimOne(pel, xs[0], name, minIdle);
      ClaimAllHead(pel, xs, name, minIdle);
      DistinctTail(xs);
      ClaimAllExact(pel1, xs[1..], name, minIdle);
      forall x | x in xs[1..]
        ensures Ripe(pel1, x, minIdle) <==> Ripe(pel, x, minIdle)
      {
        RipeKept(pel, xs[0], name, minIdle, x);
      }
      RipenedAgree(pel1, pel, xs[1..], minIdle);
      var pel2 := ClaimAll(pel1, Texts(xs[1..]), name, minIdle).0;
      forall i | 0 <= i < |pel|
        ensures pel2[i] == if pel[i].id in xs && pel[i].idle >= minIdle then pel[i].(owner := name, idle := 0) else pel[i]
      {
        ClaimPointStep(pel[i], pel1[i], pel2[i], xs, name, minIdle);
      }
    }
  }

  /** XCLAIM's first id argument is claimed first, then the rest. */
  lemma ClaimAllHead(pel: seq<Pending>, xs: seq<nat>, name: string, minIdle: int)
    requires xs != []
    ensures var (pel1, claimed) := ClaimOne(pel, xs[0], name, minIdle);
            var (pel2, rest) := ClaimAll(pel1, Texts(xs[1..]), name, minIdle);
            ClaimAll(pel, Texts(xs), name, minIdle) == (pel2, (if claimed then [xs[0]] else []) + rest)
  {
    ParseIdText(xs[0]);
    assert Texts(xs)[0] == IdText(xs[0]);
    assert Texts(xs)[1..] == Texts(xs[1..]);
    var rest := ClaimAll(ClaimOne(pel, xs[0], name, minIdle).0, Texts(xs[1..]), name, minIdle).1;
    assert [] + rest == rest;
  }

  lemma DistinctTail(xs: seq<nat>)
    requires xs != [] && Distinct(xs)
    ensures Distinct(xs[1..]) && xs[0] !in xs[1..]
  {
    forall k | 0 <= k < |xs[1..]| ensures xs[1..][k] != xs[0] {
      assert xs[1..][k] == xs[k + 1];
    }
    forall a, b | 0 <= a < b < |xs[1..]| ensures xs[1..][a] != xs[1..][b] {
      assert xs[1..][a] == xs[a + 1] && xs[1..][b] == xs[b + 1];
    }
  }

  /** Claiming one id leaves the idle times of every other id alone. */
  lemma RipeKept(pel: seq<Pending>, id: nat, name: string, minIdle: int, x: nat)
    requires x != id
    ensures Ripe(ClaimOne(pel, id, name, minIdle).0, x, minIdle) <==> Ripe(pel, x, minIdle)
  {
    var pel1 := ClaimOne(pel, id, name, minIdle).0;
    if Ripe(pel, x, minIdle) {
      var i :| 0 <= i < |pel| && pel[i].id == x && pel[i].idle >= minIdle;
      assert pel1[i] == pel[i];
    }
    if Ripe(pel1, x, minIdle) {
      var i :| 0 <= i < |pel1| && pel1[i].id == x && pel1[i].idle >= minIdle;
      assert pel1[i] == pel[i];
    }
  }

  /** One item through the first claim and then the others. */
  lemma ClaimPointStep(p: Pending, p1: Pending, p2: Pending, xs: seq<nat>, name: string, minIdle: int)
    requires xs != [] && xs[0] !in xs[1..]
    requires p1 == if p.id == xs[0] && p.idle >= minIdle then p.(owner := name, idle := 0) else p
    requires p2 == if p1.id in xs[1..] && p1.idle >= minIdle then p1.(owner := name, idle := 0) else p1
    ensures p2 == if p.id in xs && p.idle >= minIdle then p.(owner := name, idle := 0) else p
  {
    assert p.id in xs <==> p.id == xs[0] || p.id in xs[1..] by {
      assert xs == [xs[0]] + xs[1..];
    }
  }

  lemma {:induction false} OwnedIdsDistinct(pel: seq<Pending>, name: string)
    requires UniqueIds(pel)
    ensures Distinct(Ids(Owned(pel, name)))
    decreases |pel|
  {
    if pel != [] {
      UniqueIdsTail(pel);
      OwnedIdsDistinct(pel[1..], name);
      if pel[0].owner == name {
        OwnedTailIds(pel, name);
        DistinctCons(pel[0], Owned(pel[1..], name));
        assert Owned(pel, name) == [pel[0]] + Owned(pel[1..], name);
      }
    }
  }

  lemma UniqueIdsTail(pel: seq<Pending>)
    requires pel != [] && UniqueIds(pel)
    ensures UniqueIds(pel[1..])
  {
    forall i, j | 0 <= i < |pel[1..]| && 0 <= j < |pel[1..]| && pel[1..][i].id == pel[1..][j].id
      ensures i == j
    {
      assert pel[i + 1].id == pel[j + 1].id;
    }
  }

  lemma DistinctCons(p: Pending, rest: seq<Pending>)
    requires Distinct(Ids(rest))
    requires forall k :: 0 <= k < |rest| ==> rest[k].id != p.id
    ensures Distinct(Ids([p] + rest))
  {
    var xs := Ids([p] + rest);
    forall a, b | 0 <= a < b < |xs|
      ensures xs[a] != xs[b]
    {
      assert xs[b] == rest[b - 1].id;
      if a > 0 {
        assert xs[a] == rest[a - 1].id;
        assert Ids(rest)[a - 1] != Ids(rest)[b - 1];
      }
    }
  }

  /** The head's id is not among the ids the tail's owner entries carry. */
  lemma OwnedTailIds(pel: seq<Pending>, name: string)
    requires pel != [] && UniqueIds(pel)
    ensures forall k :: 0 <= k < |Owned(pel[1..], name)| ==> Owned(pel[1..], name)[k].id != pel[0].id
  {
    var rest := Owned(pel[1..], name);
    forall k | 0 <= k < |rest|
      ensures rest[k].id != pel[0].id
    {
      assert rest[k] in pel[1..];
      var j :| 0 <= j < |pel[1..]| && pel[1..][j] == rest[k];
      assert pel[j + 1] == rest[k];
    }
  }

  /** In a list keyed by id, the ids of a consumer's first `count` pending
      entries name only that consumer's entries, and with room for all of
      them name exactly those entries. */
  lemma OwnedIdsName(pel: seq<Pending>, name: string, count: nat)
    requires UniqueIds(pel)
    ensures Distinct(Ids(Take(Owned(pel, name), count)))
    ensures forall i :: 0 <= i < |pel| && pel[i].id in Ids(Take(Owned(pel, name), count)) ==> pel[i].owner == name
    ensures count == 0 || |Owned(pel, name)| <= count ==>
              forall i :: 0 <= i < |pel| ==> (pel[i].id in Ids(Take(Owned(pel, name), count)) <==> pel[i].owner == name)
  {
    var mine := Owned(pel, name);
    var taken := Take(mine, count);
    OwnedIdsDistinct(pel, name);
    assert forall p :: p in taken ==> p in mine;
    forall i | 0 <= i < |pel| && pel[i].id in Ids(taken)
      ensures pel[i].owner == name
    {
      var k :| 0 <= k < |taken| && Ids(taken)[k] == pel[i].id;
      assert taken[k] in pel;
      var j :| 0 <= j < |pel| && pel[j] == taken[k];
    }
    if count == 0 || |mine| <= count {
      forall i | 0 <= i < |pel| && pel[i].owner == name
        ensures pel[i].id in Ids(taken)
      {
        assert pel[i] in mine;
        var k :| 0 <= k < |mine| && mine[k] == pel[i];
        assert Ids(taken)[k] == pel[i].id;
      }
    }
  }
}
