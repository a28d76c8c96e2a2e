/** The cleanup pass that opens every round of a consumer unit
    (`_cleanUp` in src/consumer-unit.ts): find the consumers of the group
    whose connections are gone, take over what they left pending, and
    drop the long-idle ones that left nothing. */
module Cleanup {
  import opened Wrappers
  import opened Resp
  import opened Store
  import Text
  import Decimal
  import Transformers
  import Commands

  /** Which reading of the XPENDING reply the pass uses: the one in the
      source, or the one it evidently intends. */
  datatype Build = AsWritten | Corrected

  // ---------------------------------------------------------------------
  // Reading XINFO CONSUMERS

  /** One XINFO CONSUMERS record as the client hands it over. */
  function StatReply(c: ConsumerStat): Reply {
    Array([Bulk("name"), Bulk(c.name), Bulk("pending"), Integer(c.pending), Bulk("idle"), Integer(c.idle)])
  }

  /** `data`: the record read into an object, `data[inf[i]] = inf[i + 1]`. */
  function Data(c: ConsumerStat): map<string, Slot> {
    Transformers.Assign(Transformers.FieldPairs(StatReply(c).items))
  }

  lemma DataFields(c: ConsumerStat)
    ensures "pending" in Data(c) && Data(c)["pending"] == Some(Integer(c.pending))
    ensures "idle" in Data(c) && Data(c)["idle"] == Some(Integer(c.idle))
  {
    var pairs := Transformers.FieldPairs(StatReply(c).items);
    assert pairs[0].0 == "name";
    assert pairs[1] == ("pending", Some(Integer(c.pending)));
    assert pairs[2] == ("idle", Some(Integer(c.idle)));
    Transformers.AssignLastWins(pairs, "pending");
    Transformers.AssignLastWins(pairs, "idle");
  }

  function NamesOf(stats: seq<ConsumerStat>): (names: seq<string>)
    ensures |names| == |stats| && forall i :: 0 <= i < |stats| ==> names[i] == stats[i].name
  {
    seq(|stats|, i requires 0 <= i < |stats| => stats[i].name)
  }

  /** `consumerInfo`: every record's object filed under `String(inf[1])`,
      its consumer name. */
  function ConsumerInfo(stats: seq<ConsumerStat>): map<string, map<string, Slot>> {
    Transformers.Assign(seq(|stats|, i requires 0 <= i < |stats| => (SlotText(At(StatReply(stats[i]), 1)), Data(stats[i]))))
  }

  /** The object lists exactly the consumers of the records, each with the
      object of one of its records. */
  lemma ConsumerInfoOf(stats: seq<ConsumerStat>, n: string)
    ensures n in ConsumerInfo(stats) <==> n in NamesOf(stats)
    ensures n in ConsumerInfo(stats) ==>
              exists j :: 0 <= j < |stats| && stats[j].name == n && ConsumerInfo(stats)[n] == Data(stats[j])
  {
    var pairs := seq(|stats|, i requires 0 <= i < |stats| => (SlotText(At(StatReply(stats[i]), 1)), Data(stats[i])));
    assert forall i :: 0 <= i < |stats| ==> pairs[i] == (stats[i].name, Data(stats[i]));
    Transformers.AssignLastWins(pairs, n);
    if n in ConsumerInfo(stats) {
      Transformers.AssignFrom(pairs, n);
    }
  }

  lemma ConsumerInfoKeys(stats: seq<ConsumerStat>)
    ensures forall n :: n in ConsumerInfo(stats) <==> n in NamesOf(stats)
  {
    forall n {
      ConsumerInfoOf(stats, n);
    }
  }

  /** Each name at most once, as in a `Set` or the keys of an object. */
  predicate NoRepeats(xs: seq<string>) {
    forall a, b :: 0 <= a < b < |xs| ==> xs[a] != xs[b]
  }

  /** `Object.keys(...)` and the iteration order of a `Set`: each name once,
      in order of first appearance. */
  function Keys(xs: seq<string>): (r: seq<string>)
    ensures forall x :: x in r <==> x in xs
    ensures NoRepeats(r)
    decreases |xs|
  {
    if xs == [] then []
    else
      var n := |xs| - 1;
      assert xs == xs[..n] + [xs[n]];
      var r := Keys(xs[..n]);
      if xs[n] in r then r else r + [xs[n]]
  }

  /** A property of a consumer's object, `undefined` when absent. */
  function Field(data: map<string, Slot>, key: string): Slot {
    if key in data then data[key] else None
  }

  /** `v > bound` for a value read out of a reply: `null` compares as 0,
      `undefined` as NaN. */
  predicate Above(v: Slot, bound: int) {
    v.Some? && ((v.value.Integer? && v.value.n > bound) || (v.value.Nil? && 0 > bound))
  }

  /** The split of the consumers: those with something pending, and those
      with nothing pending and idle for longer than `bound`, each list in
      the order of `names`. */
  function Partition(names: seq<string>, info: map<string, map<string, Slot>>, bound: int): (r: (seq<string>, seq<string>))
    requires forall n :: n in names ==> n in info
    ensures forall n :: n in r.0 <==> n in names && Truthy(Field(info[n], "pending"))
    ensures forall n :: n in r.1 <==> n in names && !Truthy(Field(info[n], "pending")) && Above(Field(info[n], "idle"), bound)
    ensures NoRepeats(names) ==> NoRepeats(r.0) && NoRepeats(r.1)
    decreases |names|
  {
    if names == [] then ([], [])
    else
      var k := |names| - 1;
      assert names == names[..k] + [names[k]];
      var (pending, empty) := Partition(names[..k], info, bound);
      var con := names[k];
      if Truthy(Field(info[con], "pending")) then (pending + [con], empty)
      else if Above(Field(info[con], "idle"), bound) then (pending, empty + [con])
      else (pending, empty)
  }

  /** `pendingConsumerNames` and `emptyConsumerNames` of the XINFO records. */
  function Classify(stats: seq<ConsumerStat>, bound: int): (r: (seq<string>, seq<string>))
    ensures forall n :: n in r.0 ==> n !in r.1
    ensures forall n :: n in r.0 || n in r.1 ==> n in NamesOf(stats)
    ensures NoRepeats(r.0) && NoRepeats(r.1)
  {
    ConsumerInfoKeys(stats);
    Partition(Keys(NamesOf(stats)), ConsumerInfo(stats), bound)
  }

  /** What the object says about a registered consumer of the group. */
  lemma InfoOfGroup(g: Group, n: string)
    requires n in Names(g.consumers)
    ensures var info := ConsumerInfo(Stats(g, g.consumers));
            && n in info
            && Field(info[n], "pending") == Some(Integer(PendingCount(g, n)))
            && exists j :: 0 <= j < |g.consumers| && g.consumers[j].name == n
                           && Field(info[n], "idle") == Some(Integer(g.consumers[j].idle))
  {
    var regs := g.consumers;
    var stats := Stats(g, regs);
    var x :| x in regs && x.name == n;
    var i :| 0 <= i < |regs| && regs[i] == x;
    assert NamesOf(stats)[i] == n;
    ConsumerInfoOf(stats, n);
    var j :| 0 <= j < |stats| && stats[j].name == n && ConsumerInfo(stats)[n] == Data(stats[j]);
    DataFields(stats[j]);
  }

  lemma NamesOfStats(g: Group, n: string)
    ensures n in NamesOf(Stats(g, g.consumers)) <==> n in Names(g.consumers)
  {
    var regs := g.consumers;
    if n in Names(regs) {
      var x :| x in regs && x.name == n;
      var i :| 0 <= i < |regs| && regs[i] == x;
      assert NamesOf(Stats(g, regs))[i] == n;
    }
    if n in NamesOf(Stats(g, regs)) {
      var i :| 0 <= i < |regs| && NamesOf(Stats(g, regs))[i] == n;
      assert regs[i] in regs;
    }
  }

  /** Read against the group itself: a consumer is pending exactly when it
      owns an entry, and empty exactly when it owns none and has been idle
      for longer than the bound. */
  lemma ClassifyGroup(g: Group, bound: int, n: string)
    ensures n in Classify(Stats(g, g.consumers), bound).0 <==> n in Names(g.consumers) && PendingCount(g, n) > 0
    ensures UniqueNames(g.consumers) ==>
              (n in Classify(Stats(g, g.consumers), bound).1 <==>
                 n in Names(g.consumers) && PendingCount(g, n) == 0
                 && exists x :: x in g.consumers && x.name == n && x.idle > bound)
  {
    var regs := g.consumers;
    var stats := Stats(g, regs);
    var info := ConsumerInfo(stats);
    ConsumerInfoKeys(stats);
    NamesOfStats(g, n);
    var r := Partition(Keys(NamesOf(stats)), info, bound);
    assert r == Classify(stats, bound);
    assert n in Keys(NamesOf(stats)) <==> n in Names(regs);
    if n in Names(regs) {
      InfoOfGroup(g, n);
      var j :| 0 <= j < |regs| && regs[j].name == n && Field(info[n], "idle") == Some(Integer(regs[j].idle));
      assert regs[j] in regs;
      if UniqueNames(regs) {
        forall x | x in regs && x.name == n
          ensures x == regs[j]
        {
          var i :| 0 <= i < |regs| && regs[i] == x;
          assert i == j;
        }
      }
    }
  }

  // ---------------------------------------------------------------------
  // Reading CLIENT LIST

  /** The name a CLIENT LIST token announces: `name=<x>` with a non-empty
      x, x being the text between the first and the second `=`. */
  function NameOf(token: string): Option<string> {
    if Text.StartsWith(token, "name=") then
      var parts := Text.Split(token, '=');
      if |parts| > 1 && |parts[1]| > 0 then Some(parts[1]) else None
    else None
  }

  /** The space-separated tokens of every line. */
  function Tokens(lines: seq<string>): (r: seq<string>)
    ensures forall t :: t in r <==> exists i :: 0 <= i < |lines| && t in Text.Split(lines[i], ' ')
    decreases |lines|
  {
    if lines == [] then []
    else
      var rest := Tokens(lines[1..]);
      assert forall i :: 1 <= i < |lines| ==> lines[i] == lines[1..][i - 1];
      Text.Split(lines[0], ' ') + rest
  }

  /** The names the tokens announce, in order. */
  function Announced(tokens: seq<string>): (r: seq<string>)
    ensures forall x :: x in r <==> exists t :: t in tokens && NameOf(t) == Some(x)
    decreases |tokens|
  {
    if tokens == [] then []
    else
      var rest := Announced(tokens[1..]);
      assert forall t :: t in tokens <==> t == tokens[0] || t in tokens[1..];
      match NameOf(tokens[0])
      case Some(x) => [x] + rest
      case None => rest
  }

  /** `activeWorkers`: the names of the server's open connections. */
  function ActiveWorkers(clientList: string): (r: seq<string>)
    ensures forall x :: x in r <==> exists t :: t in Tokens(Text.Split(clientList, '\n')) && NameOf(t) == Some(x)
    ensures NoRepeats(r)
  {
    Keys(Announced(Tokens(Text.Split(clientList, '\n'))))
  }

  /** A connection as CLIENT LIST describes it. */
  datatype Connection = Connection(id: nat, name: string)

  function ClientLine(c: Connection): string {
    Text.Join(["id=" + Decimal.Show(c.id), "name=" + c.name], ' ')
  }

  /** The CLIENT LIST reply: one line per connection, each ended by a
      newline. */
  function ClientList(conns: seq<Connection>): string {
    Text.Join(ClientLines(conns), '\n')
  }

  lemma IdTokenNamesNothing(id: nat)
    ensures NameOf("id=" + Decimal.Show(id)) == None
  {
    assert ("id=" + Decimal.Show(id))[0] == 'i';
  }

  lemma NameTokenNames(name: string)
    requires '=' !in name
    ensures NameOf("name=" + name) == (if name == "" then None else Some(name))
  {
    var token := "name=" + name;
    assert token[..5] == "name=";
    assert token == Text.Join(["name", name], '=');
    Text.SplitOfJoin(["name", name], '=');
  }

  predicate PlainName(name: string) {
    ' ' !in name && '\n' !in name && '=' !in name
  }

  lemma ShowIsPlain(id: nat)
    ensures ' ' !in Decimal.Show(id) && '\n' !in Decimal.Show(id)
  {
    forall k | 0 <= k < |Decimal.Show(id)|
      ensures Decimal.IsDigit(Decimal.Show(id)[k])
    {
    }
  }

  lemma ClientLineTokens(c: Connection)
    requires PlainName(c.name)
    ensures Text.Split(ClientLine(c), ' ') == ["id=" + Decimal.Show(c.id), "name=" + c.name]
    ensures '\n' !in ClientLine(c)
  {
    ShowIsPlain(c.id);
    var id := "id=" + Decimal.Show(c.id);
    assert ' ' !in id && '\n' !in id;
    Text.SplitOfJoin([id, "name=" + c.name], ' ');
    assert ClientLine(c) == id + " " + "name=" + c.name;
  }

  function ClientLines(conns: seq<Connection>): (lines: seq<string>)
    ensures |lines| == |conns| + 1 && lines[|conns|] == ""
    ensures forall i :: 0 <= i < |conns| ==> lines[i] == ClientLine(conns[i])
  {
    seq(|conns|, i requires 0 <= i < |conns| => ClientLine(conns[i])) + [""]
  }

  lemma ClientListLines(conns: seq<Connection>)
    requires forall i :: 0 <= i < |conns| ==> PlainName(conns[i].name)
    ensures Text.Split(ClientList(conns), '\n') == ClientLines(conns)
  {
    var lines := ClientLines(conns);
    forall i | 0 <= i < |lines|
      ensures '\n' !in lines[i]
    {
      if i < |conns| {
        ClientLineTokens(conns[i]);
      }
    }
    assert ClientList(conns) == Text.Join(lines, '\n');
    Text.SplitOfJoin(lines, '\n');
  }

  /** The only token of a connection's line that names anything is its
      `name=` token. */
  lemma LineNames(c: Connection, t: string)
    requires PlainName(c.name)
    requires t in Text.Split(ClientLine(c), ' ')
    ensures NameOf(t) == (if c.name == "" || t != "name=" + c.name then None else Some(c.name))
  {
    ClientLineTokens(c);
    IdTokenNamesNothing(c.id);
    NameTokenNames(c.name);
    assert t == "id=" + Decimal.Show(c.id) || t == "name=" + c.name;
    if t == "id=" + Decimal.Show(c.id) {
      assert t[0] == 'i' && ("name=" + c.name)[0] == 'n';
    }
  }

  /** Read back from the server's reply, the active workers are exactly the
      connections that carry a name. */
  lemma ActiveWorkersOfClientList(conns: seq<Connection>, x: string)
    requires forall i :: 0 <= i < |conns| ==> PlainName(conns[i].name)
    ensures x in ActiveWorkers(ClientList(conns)) <==> x != "" && exists c :: c in conns && c.name == x
  {
    if x in ActiveWorkers(ClientList(conns)) {
      ActiveIsConnected(conns, x);
    }
    if x != "" && exists c :: c in conns && c.name == x {
      var c :| c in conns && c.name == x;
      ConnectedIsActive(conns, c);
    }
  }

  lemma ActiveIsConnected(conns: seq<Connection>, x: string)
    requires forall i :: 0 <= i < |conns| ==> PlainName(conns[i].name)
    requires x in ActiveWorkers(ClientList(conns))
    ensures x != "" && exists c :: c in conns && c.name == x
  {
    var lines := ClientLines(conns);
    ClientListLines(conns);
    var tokens := Tokens(lines);
    var t :| t in tokens && NameOf(t) == Some(x);
    var i :| 0 <= i < |lines| && t in Text.Split(lines[i], ' ');
    if i < |conns| {
      LineNames(conns[i], t);
      assert conns[i] in conns;
    }
  }

  lemma ConnectedIsActive(conns: seq<Connection>, c: Connection)
    requires forall i :: 0 <= i < |conns| ==> PlainName(conns[i].name)
    requires c in conns && c.name != ""
    ensures c.name in ActiveWorkers(ClientList(conns))
  {
    var lines := ClientLines(conns);
    ClientListLines(conns);
    var i :| 0 <= i < |conns| && conns[i] == c;
    ClientLineTokens(c);
    NameTokenNames(c.name);
    assert "name=" + c.name in Text.Split(lines[i], ' ');
  }

  /** `difference(setA, setB)`: the elements of `xs` not in `ys`, in order. */
  function Without(xs: seq<string>, ys: seq<string>): (r: seq<string>)
    ensures forall x :: x in r <==> x in xs && x !in ys
    ensures NoRepeats(xs) ==> NoRepeats(r)
    decreases |xs|
  {
    if xs == [] then []
    else
      assert forall x :: x in xs <==> x == xs[0] || x in xs[1..];
      (if xs[0] in ys then [] else [xs[0]]) + Without(xs[1..], ys)
  }

  // ---------------------------------------------------------------------
  // Claiming an orphan's entries

  /** How the client sends a value it got from a reply: `undefined` and
      `null` as "", anything else as its text. */
  function ArgOf(v: Slot): string {
    if v.None? || v.value.Nil? then "" else ToText(v.value)
  }

  function Parse(build: Build, reply: Slot): Result<Transformers.PendingReply, JsError> {
    if build.AsWritten? then Transformers.ParseXPendingResponse(reply) else Transformers.ParseXPendingCorrected(reply)
  }

  /** The entries whose ids reach XCLAIM: the consumer's first 1000, except
      that the source reads a reply of exactly four entries as the summary
      form and claims none of them. */
  function Offered(build: Build, pel: seq<Pending>, w: string): (r: seq<Pending>)
    ensures r == Take(Owned(pel, w), 1000) || r == []
  {
    var mine := Take(Owned(pel, w), 1000);
    if build.AsWritten? && |mine| == 4 then [] else mine
  }

  function PendingListReply(mine: seq<Pending>): Reply {
    Array(seq(|mine|, i requires 0 <= i < |mine| => PendingReply(mine[i])))
  }

  /** Four detailed entries parse, as the summary form, without error. */
  lemma FourParseAsSummary(mine: seq<Pending>)
    requires |mine| == 4
    ensures Transformers.ParseXPendingResponse(Some(PendingListReply(mine))).Success?
    ensures Transformers.ParseXPendingResponse(Some(PendingListReply(mine))).value.Summary?
  {
    var reply := PendingListReply(mine);
    assert reply.items[3] == PendingReply(mine[3]);
    assert Transformers.SummaryConsumers(At(reply, 3)).Success?;
  }

  /** Read as records, the detailed entries give back their ids. */
  lemma RecordsGiveIds(mine: seq<Pending>)
    ensures Transformers.ParsePendingRecords(PendingListReply(mine).items).Success?
    ensures var recs := Transformers.ParsePendingRecords(PendingListReply(mine).items).value;
            forall i :: 0 <= i < |mine| ==> recs[i].id == Some(Bulk(IdText(mine[i].id)))
  {
    var items := PendingListReply(mine).items;
    assert forall i :: 0 <= i < |items| ==> items[i] == PendingReply(mine[i]);
    var recs := Transformers.ParsePendingRecords(items);
    forall i | 0 <= i < |mine|
      ensures recs.value[i].id == Some(Bulk(IdText(mine[i].id)))
    {
      assert Success(recs.value[i]) == Transformers.ParsePendingRecord(items[i]);
    }
  }

  /** The detailed XPENDING reply always parses, and the ids read out of it
      are those of the offered entries. */
  lemma ParsePendingList(build: Build, mine: seq<Pending>)
    ensures Parse(build, Some(PendingListReply(mine))).Success?
    ensures var ids := Transformers.PendingIds(Parse(build, Some(PendingListReply(mine))).value);
            var offered := if build.AsWritten? && |mine| == 4 then [] else mine;
            |ids| == |offered| && forall i :: 0 <= i < |ids| ==> ids[i] == Some(Bulk(IdText(offered[i].id)))
  {
    var reply := PendingListReply(mine);
    if build.AsWritten? && |mine| == 4 {
      FourParseAsSummary(mine);
    } else {
      RecordsGiveIds(mine);
      var recs := Transformers.ParsePendingRecords(reply.items);
      if |mine| > 0 {
        assert reply.items[0] == PendingReply(mine[0]);
      }
      assert Parse(build, Some(reply)) == Success(Transformers.Records(recs.value));
    }
  }

  /** Entries idle at least `minIdle`, in order. */
  function Stale(ps: seq<Pending>, minIdle: int): (r: seq<Pending>)
    ensures forall p :: p in r <==> p in ps && p.idle >= minIdle
    decreases |ps|
  {
    if ps == [] then []
    else
      assert forall p :: p in ps <==> p == ps[0] || p in ps[1..];
      (if ps[0].idle >= minIdle then [ps[0]] else []) + Stale(ps[1..], minIdle)
  }

  lemma {:induction false} RipenedIds(pel: seq<Pending>, ps: seq<Pending>, minIdle: int)
    requires forall k :: 0 <= k < |ps| ==> (Ripe(pel, ps[k].id, minIdle) <==> ps[k].idle >= minIdle)
    ensures Ripened(pel, Ids(ps), minIdle) == Ids(Stale(ps, minIdle))
    decreases |ps|
  {
    if ps != [] {
      assert Ids(ps)[1..] == Ids(ps[1..]);
      RipenedIds(pel, ps[1..], minIdle);
    }
  }

  /** One orphan: XPENDING for its first 1000 entries, the parse, then
      XCLAIM JUSTID of the ids read; the count is `claimInfo[w]`. */
  function ClaimFrom(s: Store, qkey: string, group: string, self: string, minIdle: int, w: string, build: Build): (r: (Store, nat))
    requires HasGroup(s, qkey, group)
    ensures HasGroup(r.0, qkey, group)
    ensures StreamAt(r.0, qkey).entries == StreamAt(s, qkey).entries
    ensures StreamAt(r.0, qkey).lastId == StreamAt(s, qkey).lastId
    ensures forall k :: k != qkey ==> StreamAt(r.0, k) == StreamAt(s, k)
    ensures r.0.sets == s.sets
    ensures Names(GroupAt(r.0, qkey, group).consumers) == Names(GroupAt(s, qkey, group).consumers) + {self}
    ensures var pel := GroupAt(s, qkey, group).pel;
            var pel' := GroupAt(r.0, qkey, group).pel;
            && |pel'| == |pel|
            && (forall i :: 0 <= i < |pel| ==> pel'[i].id == pel[i].id)
            && (UniqueIds(pel) ==>
                  && r.1 == |Stale(Offered(build, pel, w), minIdle)|
                  && forall i :: 0 <= i < |pel| ==>
                       pel'[i] == if pel[i] in Offered(build, pel, w) && pel[i].idle >= minIdle
                                  then pel[i].(owner := self, idle := 0) else pel[i])
  {
    var pel := GroupAt(s, qkey, group).pel;
    var mine := Take(Owned(pel, w), 1000);
    var reply := XPendingOf(s, qkey, group, 1000, w).value;
    assert reply == PendingListReply(mine);
    ParsePendingList(build, mine);
    var found := Transformers.PendingIds(Parse(build, Some(reply)).value);
    var ids := seq(|found|, i requires 0 <= i < |found| => ArgOf(found[i]));
    var offered := Offered(build, pel, w);
    assert ids == Texts(Ids(offered));
    var (s', claimed) := XClaim(s, qkey, group, self, minIdle, ids).value;
    ClaimedFromOffered(pel, build, w, self, minIdle);
    (s', |claimed|)
  }

  /** What XCLAIM of the offered ids does to a list keyed by id. */
  lemma ClaimedFromOffered(pel: seq<Pending>, build: Build, w: string, self: string, minIdle: int)
    ensures var offered := Offered(build, pel, w);
            var r := ClaimAll(pel, Texts(Ids(offered)), self, minIdle);
            UniqueIds(pel) ==>
              && |r.1| == |Stale(offered, minIdle)|
              && forall i :: 0 <= i < |pel| ==>
                   r.0[i] == if pel[i] in offered && pel[i].idle >= minIdle then pel[i].(owner := self, idle := 0) else pel[i]
  {
    var offered := Offered(build, pel, w);
    if UniqueIds(pel) {
      OwnedIdsName(pel, w, 1000);
      assert Distinct(Ids(offered));
      ClaimAllExact(pel, Ids(offered), self, minIdle);
      OfferedInPel(build, pel, w);
      IdsNameMembers(pel, offered);
      RipeOfMembers(pel, offered, minIdle);
      RipenedIds(pel, offered, minIdle);
    }
  }

  lemma OfferedInPel(build: Build, pel: seq<Pending>, w: string)
    ensures forall p :: p in Offered(build, pel, w) ==> p in pel
  {
    var mine := Owned(pel, w);
    assert forall p :: p in Take(mine, 1000) ==> p in mine;
  }

  /** In a list keyed by id, an id of some of its items names exactly
      those items. */
  lemma IdsNameMembers(pel: seq<Pending>, some: seq<Pending>)
    requires UniqueIds(pel)
    requires forall p :: p in some ==> p in pel
    ensures forall i :: 0 <= i < |pel| ==> (pel[i].id in Ids(some) <==> pel[i] in some)
  {
    forall i | 0 <= i < |pel|
      ensures pel[i].id in Ids(some) <==> pel[i] in some
    {
      if pel[i].id in Ids(some) {
        var k :| 0 <= k < |some| && Ids(some)[k] == pel[i].id;
        assert some[k] in pel;
        var j :| 0 <= j < |pel| && pel[j] == some[k];
        assert pel[j].id == pel[i].id;
      }
      if pel[i] in some {
        var k :| 0 <= k < |some| && some[k] == pel[i];
        assert Ids(some)[k] == pel[i].id;
      }
    }
  }

  /** In a list keyed by id, an item's id is ripe exactly when the item
      itself has been idle long enough. */
  lemma RipeOfMembers(pel: seq<Pending>, some: seq<Pending>, minIdle: int)
    requires UniqueIds(pel)
    requires forall p :: p in some ==> p in pel
    ensures forall k :: 0 <= k < |some| ==> (Ripe(pel, some[k].id, minIdle) <==> some[k].idle >= minIdle)
  {
    forall k | 0 <= k < |some|
      ensures Ripe(pel, some[k].id, minIdle) <==> some[k].idle >= minIdle
    {
      assert some[k] in pel;
      var j :| 0 <= j < |pel| && pel[j] == some[k];
      if Ripe(pel, some[k].id, minIdle) {
        var i :| 0 <= i < |pel| && pel[i].id == some[k].id && pel[i].idle >= minIdle;
        assert i == j;
      }
    }
  }

  /** As written: an orphan with exactly four pending entries gives up
      none of them, however long they have been idle; the XPENDING reply is
      read as the summary form and XCLAIM gets no id. */
  lemma FourPendingNeverClaimed(s: Store, qkey: string, group: string, self: string, minIdle: int, w: string)
    requires HasGroup(s, qkey, group) && UniqueIds(GroupAt(s, qkey, group).pel)
    requires |Owned(GroupAt(s, qkey, group).pel, w)| == 4
    ensures var r := ClaimFrom(s, qkey, group, self, minIdle, w, AsWritten);
            r.1 == 0 && GroupAt(r.0, qkey, group).pel == GroupAt(s, qkey, group).pel
  {
    var pel := GroupAt(s, qkey, group).pel;
    assert Offered(AsWritten, pel, w) == [];
    var pel' := GroupAt(ClaimFrom(s, qkey, group, self, minIdle, w, AsWritten).0, qkey, group).pel;
    assert forall i :: 0 <= i < |pel| ==> pel'[i] == pel[i];
  }

  lemma StaleAll(ps: seq<Pending>, minIdle: int)
    requires forall p :: p in ps ==> p.idle >= minIdle
    ensures Stale(ps, minIdle) == ps
  {
    if ps != [] {
      assert ps[0] in ps;
      StaleAll(ps[1..], minIdle);
    }
  }

  /** Corrected: every entry of an orphan with at most 1000 pending goes to
      this consumer once idle long enough, and the count is the number of
      entries handed over; nothing else changes. */
  lemma CorrectedClaimsStaleEntries(s: Store, qkey: string, group: string, self: string, minIdle: int, w: string)
    requires HasGroup(s, qkey, group) && UniqueIds(GroupAt(s, qkey, group).pel)
    requires |Owned(GroupAt(s, qkey, group).pel, w)| <= 1000
    ensures var pel := GroupAt(s, qkey, group).pel;
            var r := ClaimFrom(s, qkey, group, self, minIdle, w, Corrected);
            var pel' := GroupAt(r.0, qkey, group).pel;
            && r.1 == |Stale(Owned(pel, w), minIdle)|
            && (forall i :: 0 <= i < |pel| ==>
                  pel'[i] == if pel[i].owner == w && pel[i].idle >= minIdle then pel[i].(owner := self, idle := 0) else pel[i])
            && ((forall p :: p in Owned(pel, w) ==> p.idle >= minIdle) ==> r.1 == |Owned(pel, w)|)
  {
    var pel := GroupAt(s, qkey, group).pel;
    assert Offered(Corrected, pel, w) == Owned(pel, w);
    if forall p :: p in Owned(pel, w) ==> p.idle >= minIdle {
      StaleAll(Owned(pel, w), minIdle);
    }
  }

  /** The claims of the pass, one orphan after the other; the pairs are the
      entries of `claimInfo` in order. */
  function ClaimEach(s: Store, qkey: string, group: string, self: string, minIdle: int, ws: seq<string>, build: Build): (r: (Store, seq<(string, nat)>))
    requires HasGroup(s, qkey, group)
    ensures HasGroup(r.0, qkey, group)
    ensures StreamAt(r.0, qkey).entries == StreamAt(s, qkey).entries
    ensures StreamAt(r.0, qkey).lastId == StreamAt(s, qkey).lastId
    ensures forall k :: k != qkey ==> StreamAt(r.0, k) == StreamAt(s, k)
    ensures r.0.sets == s.sets
    ensures Names(GroupAt(s, qkey, group).consumers) <= Names(GroupAt(r.0, qkey, group).consumers)
    ensures Names(GroupAt(r.0, qkey, group).consumers) <= Names(GroupAt(s, qkey, group).consumers) + {self}
    ensures |r.1| == |ws| && forall k :: 0 <= k < |ws| ==> r.1[k].0 == ws[k]
    ensures var pel := GroupAt(s, qkey, group).pel;
            var pel' := GroupAt(r.0, qkey, group).pel;
            && |pel'| == |pel|
            && (forall i :: 0 <= i < |pel| ==> pel'[i].id == pel[i].id)
            && (UniqueIds(pel) ==>
                  forall i :: 0 <= i < |pel| ==>
                    pel'[i] == pel[i] ||
                    (pel[i].owner in ws && pel[i].idle >= minIdle && pel'[i] == pel[i].(owner := self, idle := 0)))
    decreases |ws|
  {
    if ws == [] then (s, [])
    else
      var (s1, n) := ClaimFrom(s, qkey, group, self, minIdle, ws[0], build);
      var (s2, rest) := ClaimEach(s1, qkey, group, self, minIdle, ws[1..], build);
      var pel, pel1, pel2 := GroupAt(s, qkey, group).pel, GroupAt(s1, qkey, group).pel, GroupAt(s2, qkey, group).pel;
      ClaimStepsCompose(pel, pel1, pel2, build, ws, self, minIdle);
      ClaimInfoOrder(ws, n, rest);
      (s2, [(ws[0], n)] + rest)
  }

  /** With distinct orphans other than this consumer, the pass is exact:
      each count is the number of that orphan's offered entries idle long
      enough, and exactly those entries change hands. */
  lemma {:induction false} ClaimEachExactly(s: Store, qkey: string, group: string, self: string, minIdle: int,
                                            ws: seq<string>, build: Build)
    requires HasGroup(s, qkey, group)
    ensures var r := ClaimEach(s, qkey, group, self, minIdle, ws, build);
            var pel := GroupAt(s, qkey, group).pel;
            var pel' := GroupAt(r.0, qkey, group).pel;
            UniqueIds(pel) && NoRepeats(ws) && self !in ws ==>
              && (forall k :: 0 <= k < |ws| ==> r.1[k].1 == |Stale(Offered(build, pel, ws[k]), minIdle)|)
              && (forall i :: 0 <= i < |pel| ==>
                    pel'[i] == if Claims(build, pel, ws, minIdle, pel[i]) then pel[i].(owner := self, idle := 0) else pel[i])
    decreases |ws|
  {
    if ws != [] {
      var (s1, n) := ClaimFrom(s, qkey, group, self, minIdle, ws[0], build);
      var (s2, rest) := ClaimEach(s1, qkey, group, self, minIdle, ws[1..], build);
      ClaimEachExactly(s1, qkey, group, self, minIdle, ws[1..], build);
      var pel, pel1, pel2 := GroupAt(s, qkey, group).pel, GroupAt(s1, qkey, group).pel, GroupAt(s2, qkey, group).pel;
      ClaimEachExact(pel, pel1, pel2, build, ws, self, minIdle, n, rest);
    }
  }

  /** One step of the exact form: the first orphan's claim, then the rest. */
  lemma ClaimEachExact(pel: seq<Pending>, pel1: seq<Pending>, pel2: seq<Pending>, build: Build,
                       ws: seq<string>, self: string, minIdle: int, n: nat, rest: seq<(string, nat)>)
    requires |ws| > 0 && |pel1| == |pel| && |pel2| == |pel| && |rest| == |ws| - 1
    requires forall i :: 0 <= i < |pel| ==> pel1[i].id == pel[i].id
    requires UniqueIds(pel) ==>
               && n == |Stale(Offered(build, pel, ws[0]), minIdle)|
               && forall i :: 0 <= i < |pel| ==>
                    pel1[i] == if pel[i] in Offered(build, pel, ws[0]) && pel[i].idle >= minIdle
                               then pel[i].(owner := self, idle := 0) else pel[i]
    requires UniqueIds(pel1) && NoRepeats(ws[1..]) && self !in ws[1..] ==>
               && (forall k :: 0 <= k < |ws[1..]| ==> rest[k].1 == |Stale(Offered(build, pel1, ws[1..][k]), minIdle)|)
               && (forall i :: 0 <= i < |pel1| ==>
                     pel2[i] == if Claims(build, pel1, ws[1..], minIdle, pel1[i]) then pel1[i].(owner := self, idle := 0) else pel1[i])
    ensures UniqueIds(pel) && NoRepeats(ws) && self !in ws ==>
              && (forall k :: 0 <= k < |ws| ==> ([(ws[0], n)] + rest)[k].1 == |Stale(Offered(build, pel, ws[k]), minIdle)|)
              && (forall i :: 0 <= i < |pel| ==>
                    pel2[i] == if Claims(build, pel, ws, minIdle, pel[i]) then pel[i].(owner := self, idle := 0) else pel[i])
  {
    if UniqueIds(pel) && NoRepeats(ws) && self !in ws {
      assert UniqueIds(pel1);
      DistinctTailNames(ws);
      assert self !in ws[1..];
      FirstClaimKeepsOthers(pel, pel1, build, ws, self, minIdle);
      ClaimStepsExact(pel, pel1, pel2, build, ws, self, minIdle);
      ClaimCountsCompose(pel, pel1, build, ws, minIdle, n, rest);
    }
  }

  /** The entry goes to this consumer in the pass: its owner is one of the
      orphans, XPENDING offered it, and it has been idle long enough. */
  predicate Claims(build: Build, pel: seq<Pending>, ws: seq<string>, minIdle: int, p: Pending) {
    p.owner in ws && p in Offered(build, pel, p.owner) && p.idle >= minIdle
  }

  lemma DistinctTailNames(ws: seq<string>)
    requires |ws| > 0 && NoRepeats(ws)
    ensures NoRepeats(ws[1..]) && ws[0] !in ws[1..]
  {
    forall k | 0 <= k < |ws[1..]| ensures ws[1..][k] != ws[0] { assert ws[1..][k] == ws[k + 1]; }
    forall a, b | 0 <= a < b < |ws[1..]| ensures ws[1..][a] != ws[1..][b] { assert ws[1..][a] == ws[a + 1] && ws[1..][b] == ws[b + 1]; }
  }

  /** Two lists that agree wherever either names `w` as owner give `w` the
      same entries. */
  lemma {:induction false} OwnedAgree(p1: seq<Pending>, p2: seq<Pending>, w: string)
    requires |p1| == |p2|
    requires forall i :: 0 <= i < |p1| && (p1[i].owner == w || p2[i].owner == w) ==> p1[i] == p2[i]
    ensures Owned(p1, w) == Owned(p2, w)
    decreases |p1|
  {
    if p1 != [] {
      forall i | 0 <= i < |p1[1..]| && (p1[1..][i].owner == w || p2[1..][i].owner == w)
        ensures p1[1..][i] == p2[1..][i]
      {
        assert p1[1..][i] == p1[i + 1] && p2[1..][i] == p2[i + 1];
      }
      OwnedAgree(p1[1..], p2[1..], w);
    }
  }

  /** Claiming the first orphan's entries changes what XPENDING offers for
      no other orphan. */
  lemma FirstClaimKeepsOthers(pel: seq<Pending>, pel1: seq<Pending>, build: Build, ws: seq<string>, self: string, minIdle: int)
    requires |ws| > 0 && ws[0] !in ws[1..] && self !in ws
    requires |pel1| == |pel|
    requires forall i :: 0 <= i < |pel| ==>
               pel1[i] == if pel[i] in Offered(build, pel, ws[0]) && pel[i].idle >= minIdle
                          then pel[i].(owner := self, idle := 0) else pel[i]
    ensures forall w :: w in ws[1..] ==> Offered(build, pel1, w) == Offered(build, pel, w)
  {
    OfferedOwned(build, pel, ws[0]);
    forall w | w in ws[1..]
      ensures Offered(build, pel1, w) == Offered(build, pel, w)
    {
      assert w != ws[0] && w != self;
      OwnedAgree(pel, pel1, w);
    }
  }

  lemma OfferedOwned(build: Build, pel: seq<Pending>, w: string)
    ensures forall p :: p in Offered(build, pel, w) ==> p.owner == w
  {
    var mine := Owned(pel, w);
    assert forall p :: p in Take(mine, 1000) ==> p in mine;
  }

  /** The pointwise form of the pass over a list of orphans. */
  lemma ClaimStepsExact(pel: seq<Pending>, pel1: seq<Pending>, pel2: seq<Pending>, build: Build,
                        ws: seq<string>, self: string, minIdle: int)
    requires |ws| > 0 && ws[0] !in ws[1..] && self !in ws
    requires |pel1| == |pel| && |pel2| == |pel|
    requires forall i :: 0 <= i < |pel| ==>
               pel1[i] == if pel[i] in Offered(build, pel, ws[0]) && pel[i].idle >= minIdle
                          then pel[i].(owner := self, idle := 0) else pel[i]
    requires forall w :: w in ws[1..] ==> Offered(build, pel1, w) == Offered(build, pel, w)
    requires forall i :: 0 <= i < |pel| ==>
               pel2[i] == if Claims(build, pel1, ws[1..], minIdle, pel1[i]) then pel1[i].(owner := self, idle := 0) else pel1[i]
    ensures forall i :: 0 <= i < |pel| ==>
              pel2[i] == if Claims(build, pel, ws, minIdle, pel[i]) then pel[i].(owner := self, idle := 0) else pel[i]
  {
    OfferedOwned(build, pel, ws[0]);
    forall i | 0 <= i < |pel|
      ensures pel2[i] == if Claims(build, pel, ws, minIdle, pel[i]) then pel[i].(owner := self, idle := 0) else pel[i]
    {
      if pel[i] in Offered(build, pel, ws[0]) && pel[i].idle >= minIdle {
        assert pel1[i].owner == self;
        assert !Claims(build, pel1, ws[1..], minIdle, pel1[i]);
      } else {
        assert pel1[i] == pel[i];
        if pel[i].owner == ws[0] {
          assert !Claims(build, pel1, ws[1..], minIdle, pel1[i]);
        }
      }
    }
  }

  /** The counts of the pass, each taken against the list as it was. */
  lemma ClaimCountsCompose(pel: seq<Pending>, pel1: seq<Pending>, build: Build, ws: seq<string>, minIdle: int,
                           n: nat, rest: seq<(string, nat)>)
    requires |ws| > 0 && n == |Stale(Offered(build, pel, ws[0]), minIdle)|
    requires |rest| == |ws| - 1
    requires forall w :: w in ws[1..] ==> Offered(build, pel1, w) == Offered(build, pel, w)
    requires forall k :: 0 <= k < |ws[1..]| ==> rest[k].1 == |Stale(Offered(build, pel1, ws[1..][k]), minIdle)|
    ensures var r := [(ws[0], n)] + rest;
            forall k :: 0 <= k < |ws| ==> r[k].1 == |Stale(Offered(build, pel, ws[k]), minIdle)|
  {
    var r := [(ws[0], n)] + rest;
    forall k | 0 < k < |ws|
      ensures r[k].1 == |Stale(Offered(build, pel, ws[k]), minIdle)|
    {
      var w := ws[1..][k - 1];
      assert w == ws[k] && w in ws[1..];
      assert rest[k - 1].1 == |Stale(Offered(build, pel1, w), minIdle)|;
      assert r[k] == rest[k - 1];
    }
  }

  lemma ClaimInfoOrder(ws: seq<string>, n: nat, rest: seq<(string, nat)>)
    requires |ws| > 0 && |rest| == |ws| - 1 && forall k :: 0 <= k < |rest| ==> rest[k].0 == ws[k + 1]
    ensures var r := [(ws[0], n)] + rest;
            |r| == |ws| && forall k :: 0 <= k < |ws| ==> r[k].0 == ws[k]
  {
  }

  /** The first claim touches only the first orphan's entries, the rest
      only the other orphans' or the already claimed ones. */
  lemma ClaimStepsCompose(pel: seq<Pending>, pel1: seq<Pending>, pel2: seq<Pending>, build: Build,
                          ws: seq<string>, self: string, minIdle: int)
    requires |ws| > 0
    requires |pel1| == |pel| && forall i :: 0 <= i < |pel| ==> pel1[i].id == pel[i].id
    requires UniqueIds(pel) ==>
               forall i :: 0 <= i < |pel| ==>
                 pel1[i] == if pel[i] in Offered(build, pel, ws[0]) && pel[i].idle >= minIdle
                            then pel[i].(owner := self, idle := 0) else pel[i]
    requires |pel2| == |pel1|
    requires UniqueIds(pel1) ==>
               forall i :: 0 <= i < |pel1| ==>
                 pel2[i] == pel1[i] ||
                 (pel1[i].owner in ws[1..] && pel1[i].idle >= minIdle && pel2[i] == pel1[i].(owner := self, idle := 0))
    ensures UniqueIds(pel) ==>
              forall i :: 0 <= i < |pel| ==>
                pel2[i] == pel[i] ||
                (pel[i].owner in ws && pel[i].idle >= minIdle && pel2[i] == pel[i].(owner := self, idle := 0))
  {
    if UniqueIds(pel) {
      assert UniqueIds(pel1);
      forall i | 0 <= i < |pel|
        ensures pel2[i] == pel[i] ||
                (pel[i].owner in ws && pel[i].idle >= minIdle && pel2[i] == pel[i].(owner := self, idle := 0))
      {
        if pel[i] in Offered(build, pel, ws[0]) {
          assert pel[i] in Owned(pel, ws[0]);
        }
        if pel2[i] != pel1[i] {
          assert pel1[i].owner in ws[1..];
        }
      }
    }
  }

  /** The housekeeping step: `delconsumer` for every orphan that left
      nothing; the script itself rechecks that nothing is pending. */
  function DeleteEach(s: Store, qkey: string, group: string, ws: seq<string>): (r: Store)
    requires HasGroup(s, qkey, group)
    ensures HasGroup(r, qkey, group)
    ensures StreamAt(r, qkey).entries == StreamAt(s, qkey).entries
    ensures StreamAt(r, qkey).lastId == StreamAt(s, qkey).lastId
    ensures forall k :: k != qkey ==> StreamAt(r, k) == StreamAt(s, k)
    ensures r.sets == s.sets
    ensures GroupAt(r, qkey, group).pel == GroupAt(s, qkey, group).pel
    ensures Names(GroupAt(r, qkey, group).consumers)
              == Names(GroupAt(s, qkey, group).consumers)
                 - (set w | w in ws && PendingCount(GroupAt(s, qkey, group), w) == 0)
    decreases |ws|
  {
    if ws == [] then s
    else
      var s1 := Commands.DelConsumer(s, qkey, group, ws[0]).value;
      var r := DeleteEach(s1, qkey, group, ws[1..]);
      assert forall w :: w in ws <==> w == ws[0] || w in ws[1..];
      assert PendingCount(GroupAt(s1, qkey, group), ws[0]) == PendingCount(GroupAt(s, qkey, group), ws[0]);
      r
  }

  // ---------------------------------------------------------------------
  // The pass

  /** What the pass returns: each intermediate list, the claims per orphan
      and the consumers it asked to delete. */
  datatype Report = Report(consumerNames: seq<string>, pendingNames: seq<string>, emptyNames: seq<string>,
                           activeWorkers: seq<string>, orphans: seq<string>, orphanEmpty: seq<string>,
                           claimInfo: map<string, nat>, deleteInfo: seq<string>)

  /** `_cleanUp()` of the consumer named `self`, with `timeoutMs` its
      worker timeout and `clientList` the CLIENT LIST reply. It fails
      with NOGROUP, before anything changes, when the group is missing. */
  function Run(s: Store, qkey: string, group: string, self: string, timeoutMs: int, clientList: string, build: Build)
    : (r: Result<(Store, Report), StoreError>)
    ensures r.Success? <==> HasGroup(s, qkey, group)
    ensures r.Success? ==>
              var (s', rep) := r.value;
              && HasGroup(s', qkey, group)
              // only the group's bookkeeping changes
              && StreamAt(s', qkey).entries == StreamAt(s, qkey).entries
              && StreamAt(s', qkey).lastId == StreamAt(s, qkey).lastId
              && (forall k :: k != qkey ==> StreamAt(s', k) == StreamAt(s, k))
              && s'.sets == s.sets
              // the orphans are the inactive consumers of each kind
              && (forall n :: n in rep.orphans <==> n in rep.pendingNames && n !in rep.activeWorkers)
              && (forall n :: n in rep.orphanEmpty <==> n in rep.emptyNames && n !in rep.activeWorkers)
              && (forall n :: n in rep.claimInfo <==> n in rep.orphans)
              && rep.deleteInfo == rep.orphanEmpty
    // nothing pending is lost, and an entry changes hands only from an
    // orphan to this consumer, after being idle twice the timeout
    ensures r.Success? && UniqueIds(GroupAt(s, qkey, group).pel) ==>
              var pel := GroupAt(s, qkey, group).pel;
              var pel' := GroupAt(r.value.0, qkey, group).pel;
              && |pel'| == |pel|
              && forall i :: 0 <= i < |pel| ==>
                   pel'[i] == pel[i] ||
                   (pel[i].owner in r.value.1.orphans && pel[i].idle >= timeoutMs * 2
                    && pel'[i] == pel[i].(owner := self, idle := 0))
    // when the client list shows this consumer's own connection: each
    // orphan's count is the number of its offered entries idle twice the
    // timeout, and exactly those entries change hands
    ensures r.Success? && UniqueIds(GroupAt(s, qkey, group).pel) && self in r.value.1.activeWorkers ==>
              var pel := GroupAt(s, qkey, group).pel;
              var pel' := GroupAt(r.value.0, qkey, group).pel;
              var rep := r.value.1;
              && NoRepeats(rep.orphans)
              && (forall w :: w in rep.orphans ==> rep.claimInfo[w] == |Stale(Offered(build, pel, w), timeoutMs * 2)|)
              && (forall i :: 0 <= i < |pel| ==>
                    pel'[i] == if Claims(build, pel, rep.orphans, timeoutMs * 2, pel[i])
                               then pel[i].(owner := self, idle := 0) else pel[i])
    // a consumer disappears only if it is an inactive empty one that owns
    // nothing, and every such consumer does disappear
    ensures r.Success? ==>
              var before := GroupAt(s, qkey, group);
              var after := GroupAt(r.value.0, qkey, group);
              && Names(after.consumers) <= Names(before.consumers) + {self}
              && (forall n :: n in Names(before.consumers) && n !in Names(after.consumers)
                    ==> n in r.value.1.orphanEmpty && PendingCount(after, n) == 0)
              && (forall n :: n in r.value.1.orphanEmpty && PendingCount(after, n) == 0 ==> n !in Names(after.consumers))
  {
    var stats :- XInfoConsumers(s, qkey, group);
    var names := Keys(NamesOf(stats));
    var (pending, empty) := Classify(stats, timeoutMs * 5);
    var active := ActiveWorkers(clientList);
    var orphans := Without(pending, active);
    var orphanEmpty := Without(empty, active);
    var (s2, claimInfo) := Reclaim(s, qkey, group, self, timeoutMs * 2, orphans, orphanEmpty, build);
    Success((s2, Report(names, pending, empty, active, orphans, orphanEmpty, claimInfo, orphanEmpty)))
  }

  /** The second half of the pass: the claims from each orphan, then the
      deletion of the empty orphans; the map is `claimInfo`. */
  function Reclaim(s: Store, qkey: string, group: string, self: string, minIdle: int,
                   orphans: seq<string>, orphanEmpty: seq<string>, build: Build): (r: (Store, map<string, nat>))
    requires HasGroup(s, qkey, group)
    ensures HasGroup(r.0, qkey, group)
    ensures StreamAt(r.0, qkey).entries == StreamAt(s, qkey).entries
    ensures StreamAt(r.0, qkey).lastId == StreamAt(s, qkey).lastId
    ensures forall k :: k != qkey ==> StreamAt(r.0, k) == StreamAt(s, k)
    ensures r.0.sets == s.sets
    ensures forall n :: n in r.1 <==> n in orphans
    ensures var pel := GroupAt(s, qkey, group).pel;
            var pel' := GroupAt(r.0, qkey, group).pel;
            && |pel'| == |pel|
            && (UniqueIds(pel) ==>
                  forall i :: 0 <= i < |pel| ==>
                    pel'[i] == pel[i] ||
                    (pel[i].owner in orphans && pel[i].idle >= minIdle && pel'[i] == pel[i].(owner := self, idle := 0)))
    ensures var pel := GroupAt(s, qkey, group).pel;
            var pel' := GroupAt(r.0, qkey, group).pel;
            UniqueIds(pel) && NoRepeats(orphans) && self !in orphans ==>
              && (forall w :: w in orphans ==> r.1[w] == |Stale(Offered(build, pel, w), minIdle)|)
              && (forall i :: 0 <= i < |pel| ==>
                    pel'[i] == if Claims(build, pel, orphans, minIdle, pel[i]) then pel[i].(owner := self, idle := 0) else pel[i])
    ensures var before := GroupAt(s, qkey, group);
            var after := GroupAt(r.0, qkey, group);
            && Names(after.consumers) <= Names(before.consumers) + {self}
            && (forall n :: n in Names(before.consumers) && n !in Names(after.consumers)
                  ==> n in orphanEmpty && PendingCount(after, n) == 0)
            && (forall n :: n in orphanEmpty && PendingCount(after, n) == 0 ==> n !in Names(after.consumers))
  {
    var (s1, claims) := ClaimEach(s, qkey, group, self, minIdle, orphans, build);
    ClaimEachExactly(s, qkey, group, self, minIdle, orphans, build);
    ClaimInfoKeys(claims, orphans);
    ClaimInfoCounts(claims, orphans, GroupAt(s, qkey, group).pel, build, minIdle);
    (DeleteEach(s1, qkey, group, orphanEmpty), Transformers.Assign(claims))
  }

  /** The counts of the claims read back out of `claimInfo`. */
  lemma ClaimInfoCounts(claims: seq<(string, nat)>, ws: seq<string>, pel: seq<Pending>, build: Build, minIdle: int)
    requires |claims| == |ws| && forall k :: 0 <= k < |ws| ==> claims[k].0 == ws[k]
    ensures NoRepeats(ws) && (forall k :: 0 <= k < |ws| ==> claims[k].1 == |Stale(Offered(build, pel, ws[k]), minIdle)|) ==>
              forall w :: w in ws ==> w in Transformers.Assign(claims) && Transformers.Assign(claims)[w] == |Stale(Offered(build, pel, w), minIdle)|
  {
    if NoRepeats(ws) && (forall k :: 0 <= k < |ws| ==> claims[k].1 == |Stale(Offered(build, pel, ws[k]), minIdle)|) {
      ClaimInfoValues(claims, ws);
      forall w | w in ws
        ensures w in Transformers.Assign(claims) && Transformers.Assign(claims)[w] == |Stale(Offered(build, pel, w), minIdle)|
      {
        var k :| 0 <= k < |ws| && ws[k] == w;
      }
    }
  }

  /** A unit names its own connection after itself, so a client list that
      lists that connection makes the pass exact: `claimInfo[w]` is the
      number of w's offered entries idle twice the timeout, and exactly
      those entries become this consumer's. */
  lemma RunClaimsExactly(s: Store, qkey: string, group: string, self: string, timeoutMs: int,
                         conns: seq<Connection>, build: Build)
    requires HasGroup(s, qkey, group) && UniqueIds(GroupAt(s, qkey, group).pel)
    requires forall i :: 0 <= i < |conns| ==> PlainName(conns[i].name)
    requires self != "" && exists c :: c in conns && c.name == self
    ensures var r := Run(s, qkey, group, self, timeoutMs, ClientList(conns), build);
            var pel := GroupAt(s, qkey, group).pel;
            && r.Success?
            && (forall w :: w in r.value.1.orphans ==> r.value.1.claimInfo[w] == |Stale(Offered(build, pel, w), timeoutMs * 2)|)
            && forall i :: 0 <= i < |pel| ==>
                 GroupAt(r.value.0, qkey, group).pel[i]
                   == if Claims(build, pel, r.value.1.orphans, timeoutMs * 2, pel[i]) then pel[i].(owner := self, idle := 0) else pel[i]
  {
    ActiveWorkersOfClientList(conns, self);
  }

  /** With each orphan once, `claimInfo[w]` is the count of w's claim. */
  lemma ClaimInfoValues(claims: seq<(string, nat)>, ws: seq<string>)
    requires |claims| == |ws| && forall k :: 0 <= k < |ws| ==> claims[k].0 == ws[k]
    requires NoRepeats(ws)
    ensures forall k :: 0 <= k < |ws| ==> ws[k] in Transformers.Assign(claims) && Transformers.Assign(claims)[ws[k]] == claims[k].1
  {
    forall k | 0 <= k < |ws|
      ensures ws[k] in Transformers.Assign(claims) && Transformers.Assign(claims)[ws[k]] == claims[k].1
    {
      Transformers.AssignLastWins(claims, ws[k]);
    }
  }

  lemma ClaimInfoKeys(claims: seq<(string, nat)>, ws: seq<string>)
    requires |claims| == |ws| && forall k :: 0 <= k < |ws| ==> claims[k].0 == ws[k]
    ensures forall n :: n in Transformers.Assign(claims) <==> n in ws
  {
    forall n
      ensures n in Transformers.Assign(claims) <==> n in ws
    {
      Transformers.AssignLastWins(claims, n);
    }
  }
}
