/** Message reconciliation of the chat store: ordering by creation time, merging a batch
    of incoming messages into a conversation's list, and the small message predicates. */
module ChatUtils {
  import opened Common
  import opened ChatTypes

  // ---------------------------------------------------------------- id helpers

  lemma HasIdWitness(s: seq<Message>, k: int)
    requires 0 <= k < |s|
    ensures HasId(s, s[k].id)
  {
  }

  lemma DistinctCons(y: Message, t: seq<Message>)
    requires DistinctIds(t) && !HasId(t, y.id)
    ensures DistinctIds([y] + t)
  {
    forall i, j | 0 <= i < j < |[y] + t| ensures ([y] + t)[i].id != ([y] + t)[j].id {
      if i == 0 {
        HasIdWitness(t, j - 1);
      } else {
        assert ([y] + t)[i] == t[i - 1] && ([y] + t)[j] == t[j - 1];
      }
    }
  }

  lemma DistinctSnoc(t: seq<Message>, y: Message)
    requires DistinctIds(t) && !HasId(t, y.id)
    ensures DistinctIds(t + [y])
  {
    forall i, j | 0 <= i < j < |t + [y]| ensures (t + [y])[i].id != (t + [y])[j].id {
      if j == |t| {
        HasIdWitness(t, i);
      }
    }
  }

  lemma DistinctTail(s: seq<Message>)
    requires s != [] && DistinctIds(s)
    ensures DistinctIds(s[1..]) && !HasId(s[1..], s[0].id)
  {
  }

  lemma DistinctPrefix(s: seq<Message>)
    requires s != [] && DistinctIds(s)
    ensures DistinctIds(s[..|s| - 1]) && !HasId(s[..|s| - 1], s[|s| - 1].id)
  {
  }

  lemma HasIdPermutation(a: seq<Message>, b: seq<Message>, id: Id)
    requires multiset(a) == multiset(b)
    ensures HasId(a, id) <==> HasId(b, id)
  {
    if HasId(a, id) {
      var k :| 0 <= k < |a| && a[k].id == id;
      assert a[k] in multiset(b);
      var k' :| 0 <= k' < |b| && b[k'] == a[k];
    }
    if HasId(b, id) {
      var k :| 0 <= k < |b| && b[k].id == id;
      assert b[k] in multiset(a);
      var k' :| 0 <= k' < |a| && a[k'] == b[k];
    }
  }

  // ---------------------------------------------------------------- sortMessagesByDate

  /** Places `x` in front of the first message that is not older than it, so that among
      messages with equal timestamps the earlier one in the input stays first. */
  function InsertByDate(x: Message, s: seq<Message>): seq<Message> {
    if s == [] then [x]
    else if x.createdAt <= s[0].createdAt then [x] + s
    else [s[0]] + InsertByDate(x, s[1..])
  }

  /** A stable sort by `createdAt` on a copy of the list (JavaScript's `Array.prototype.sort`
      is stable). */
  function SortMessagesByDate(s: seq<Message>): seq<Message> {
    if s == [] then [] else InsertByDate(s[0], SortMessagesByDate(s[1..]))
  }

  lemma {:induction false} InsertByDatePermutes(x: Message, s: seq<Message>)
    ensures multiset(InsertByDate(x, s)) == multiset(s) + multiset{x}
  {
    if s != [] && x.createdAt > s[0].createdAt {
      InsertByDatePermutes(x, s[1..]);
      assert s == [s[0]] + s[1..];
    }
  }

  lemma {:induction false} InsertByDateSorted(x: Message, s: seq<Message>)
    requires SortedByDate(s)
    ensures SortedByDate(InsertByDate(x, s))
  {
    if s != [] && x.createdAt > s[0].createdAt {
      var t := InsertByDate(x, s[1..]);
      InsertByDateSorted(x, s[1..]);
      InsertByDatePermutes(x, s[1..]);
      forall k | 0 <= k < |t| ensures s[0].createdAt <= t[k].createdAt {
        assert t[k] in multiset(s[1..]) + multiset{x};
        if t[k] != x {
          var j :| 0 <= j < |s[1..]| && s[1..][j] == t[k];
          assert s[j + 1] == t[k];
        }
      }
    }
  }

  lemma {:induction false} InsertByDateDistinct(x: Message, s: seq<Message>)
    requires DistinctIds(s) && !HasId(s, x.id)
    ensures DistinctIds(InsertByDate(x, s))
  {
    if s == [] {
    } else if x.createdAt <= s[0].createdAt {
      DistinctCons(x, s);
    } else {
      DistinctTail(s);
      assert !HasId(s[1..], x.id);
      InsertByDateDistinct(x, s[1..]);
      InsertByDatePermutes(x, s[1..]);
      var t := InsertByDate(x, s[1..]);
      HasIdPermutation(t, s[1..] + [x], s[0].id);
      assert !HasId(s[1..] + [x], s[0].id);
      DistinctCons(s[0], t);
    }
  }

  /** Sorting keeps exactly the same messages, each as often as before. */
  lemma {:induction false} SortPermutes(s: seq<Message>)
    ensures multiset(SortMessagesByDate(s)) == multiset(s)
  {
    if s != [] {
      SortPermutes(s[1..]);
      InsertByDatePermutes(s[0], SortMessagesByDate(s[1..]));
      assert s == [s[0]] + s[1..];
    }
  }

  /** Sorting orders the messages by creation time. */
  lemma {:induction false} SortSorts(s: seq<Message>)
    ensures SortedByDate(SortMessagesByDate(s))
  {
    if s != [] {
      SortSorts(s[1..]);
      InsertByDateSorted(s[0], SortMessagesByDate(s[1..]));
    }
  }

  /** Sorting a list that is already in order returns it as it is. */
  lemma {:induction false} SortKeepsSorted(s: seq<Message>)
    requires SortedByDate(s)
    ensures SortMessagesByDate(s) == s
  {
    if s != [] {
      assert SortedByDate(s[1..]);
      SortKeepsSorted(s[1..]);
      assert s == [s[0]] + s[1..];
    }
  }

  /** Sorting keeps the ids of a list without duplicates distinct. */
  lemma {:induction false} SortDistinct(s: seq<Message>)
    requires DistinctIds(s)
    ensures DistinctIds(SortMessagesByDate(s))
  {
    if s != [] {
      DistinctTail(s);
      SortDistinct(s[1..]);
      SortPermutes(s[1..]);
      HasIdPermutation(s[1..], SortMessagesByDate(s[1..]), s[0].id);
      InsertByDateDistinct(s[0], SortMessagesByDate(s[1..]));
    }
  }

  // ---------------------------------------------------------------- the message Map

  /* The JavaScript Map keyed by message id is a list of messages with distinct ids in
     insertion order: setting an existing key keeps its position and replaces the value,
     setting a new key appends, deleting a key removes its entry. */

  /** `map.set(x.id, x)`. */
  function MapSet(m: seq<Message>, x: Message): seq<Message> {
    if m == [] then [x]
    else if m[0].id == x.id then [x] + m[1..]
    else [m[0]] + MapSet(m[1..], x)
  }

  /** `map.delete(id)`. */
  function MapDelete(m: seq<Message>, id: Id): seq<Message> {
    if m == [] then [] else (if m[0].id == id then [] else [m[0]]) + MapDelete(m[1..], id)
  }

  /** Setting a key leaves the new value under it and every entry with another key. */
  lemma {:induction false} MapSetMembers(m: seq<Message>, x: Message, y: Message)
    requires DistinctIds(m)
    ensures y in MapSet(m, x) <==> y == x || (y in m && y.id != x.id)
  {
    if m != [] {
      DistinctTail(m);
      if m[0].id == x.id {
        assert m == [m[0]] + m[1..];
        if y in m[1..] {
          var k :| 0 <= k < |m[1..]| && m[1..][k] == y;
          HasIdWitness(m[1..], k);
        }
      } else {
        MapSetMembers(m[1..], x, y);
        assert m == [m[0]] + m[1..];
      }
    }
  }

  lemma HasIdCons(y: Message, t: seq<Message>, id: Id)
    ensures HasId([y] + t, id) <==> y.id == id || HasId(t, id)
  {
    if HasId(t, id) {
      var k :| 0 <= k < |t| && t[k].id == id;
      HasIdWitness([y] + t, k + 1);
    }
    if HasId([y] + t, id) {
      var k :| 0 <= k < |[y] + t| && ([y] + t)[k].id == id;
      if k > 0 { HasIdWitness(t, k - 1); }
    }
    HasIdWitness([y] + t, 0);
  }

  /** The keys after `set` are the old keys and the new one. */
  lemma {:induction false} MapSetKeys(m: seq<Message>, x: Message, id: Id)
    ensures HasId(MapSet(m, x), id) <==> HasId(m, id) || id == x.id
  {
    if m == [] {
      HasIdWitness(MapSet(m, x), 0);
    } else {
      assert m == [m[0]] + m[1..];
      HasIdCons(m[0], m[1..], id);
      if m[0].id == x.id {
        HasIdCons(x, m[1..], id);
      } else {
        MapSetKeys(m[1..], x, id);
        HasIdCons(m[0], MapSet(m[1..], x), id);
      }
    }
  }

  /** `set` keeps the keys distinct. */
  lemma {:induction false} MapSetDistinct(m: seq<Message>, x: Message)
    requires DistinctIds(m)
    ensures DistinctIds(MapSet(m, x))
  {
    if m != [] {
      DistinctTail(m);
      if m[0].id == x.id {
        DistinctCons(x, m[1..]);
      } else {
        MapSetDistinct(m[1..], x);
        MapSetKeys(m[1..], x, m[0].id);
        DistinctCons(m[0], MapSet(m[1..], x));
      }
    }
  }

  /** `set` of a new key appends an entry. */
  lemma {:induction false} MapSetAppends(m: seq<Message>, x: Message)
    requires !HasId(m, x.id)
    ensures MapSet(m, x) == m + [x]
  {
    if m != [] {
      HasIdWitness(m, 0);
      assert !HasId(m[1..], x.id);
      MapSetAppends(m[1..], x);
      assert m == [m[0]] + m[1..];
    }
  }

  /** `set` of an existing key replaces the value in place and changes nothing else. */
  lemma {:induction false} MapSetReplaces(m: seq<Message>, x: Message)
    requires DistinctIds(m) && HasId(m, x.id)
    ensures |MapSet(m, x)| == |m|
    ensures forall k :: 0 <= k < |m| ==> MapSet(m, x)[k] == if m[k].id == x.id then x else m[k]
  {
    DistinctTail(m);
    if m[0].id == x.id {
      forall k | 1 <= k < |m| ensures m[k].id != x.id { }
    } else {
      assert HasId(m[1..], x.id) by {
        var k :| 0 <= k < |m| && m[k].id == x.id;
        assert k >= 1;
        HasIdWitness(m[1..], k - 1);
      }
      MapSetReplaces(m[1..], x);
    }
  }

  /** `delete` removes exactly the entries with that key. */
  lemma {:induction false} MapDeleteMembers(m: seq<Message>, id: Id, y: Message)
    ensures y in MapDelete(m, id) <==> y in m && y.id != id
  {
    if m != [] {
      MapDeleteMembers(m[1..], id, y);
      assert m == [m[0]] + m[1..];
    }
  }

  lemma {:induction false} MapDeleteKeys(m: seq<Message>, id: Id, k: Id)
    ensures HasId(MapDelete(m, id), k) <==> HasId(m, k) && k != id
  {
    var r := MapDelete(m, id);
    if HasId(r, k) {
      var i :| 0 <= i < |r| && r[i].id == k;
      MapDeleteMembers(m, id, r[i]);
      var j :| 0 <= j < |m| && m[j] == r[i];
      HasIdWitness(m, j);
    }
    if HasId(m, k) && k != id {
      var j :| 0 <= j < |m| && m[j].id == k;
      MapDeleteMembers(m, id, m[j]);
      var i :| 0 <= i < |r| && r[i] == m[j];
      HasIdWitness(r, i);
    }
  }

  lemma {:induction false} MapDeleteDistinct(m: seq<Message>, id: Id)
    requires DistinctIds(m)
    ensures DistinctIds(MapDelete(m, id))
  {
    if m != [] {
      DistinctTail(m);
      MapDeleteDistinct(m[1..], id);
      MapDeleteKeys(m[1..], id, m[0].id);
      if m[0].id != id {
        DistinctCons(m[0], MapDelete(m[1..], id));
      }
    }
  }

  /** The Map after every existing message has been set in list order. */
  function BuildMap(e: seq<Message>): seq<Message> {
    if e == [] then [] else MapSet(BuildMap(e[..|e| - 1]), e[|e| - 1])
  }

  /** The Map built from the existing list has distinct keys, exactly the list's ids, only
      the list's messages, and for each id the last message that carries it. */
  lemma {:induction false} BuildMapProps(e: seq<Message>)
    ensures DistinctIds(BuildMap(e))
    ensures forall id :: HasId(BuildMap(e), id) <==> HasId(e, id)
    ensures forall y :: y in BuildMap(e) ==> y in e
    ensures forall i :: 0 <= i < |e| && LastWithId(e, i) ==> e[i] in BuildMap(e)
  {
    if e != [] {
      var p := e[..|e| - 1];
      var x := e[|e| - 1];
      var m' := BuildMap(p);
      assert e == p + [x];
      BuildMapProps(p);
      MapSetDistinct(m', x);
      forall id ensures HasId(BuildMap(e), id) <==> HasId(e, id) {
        MapSetKeys(m', x, id);
        if HasId(e, id) && id != x.id {
          var k :| 0 <= k < |e| && e[k].id == id;
          HasIdWitness(p, k);
        }
        if HasId(p, id) {
          var k :| 0 <= k < |p| && p[k].id == id;
          HasIdWitness(e, k);
        }
        HasIdWitness(e, |e| - 1);
      }
      forall y | y in BuildMap(e) ensures y in e {
        MapSetMembers(m', x, y);
      }
      forall i | 0 <= i < |e| && LastWithId(e, i) ensures e[i] in BuildMap(e) {
        MapSetMembers(m', x, e[i]);
        if i < |e| - 1 {
          assert LastWithId(p, i);
        }
      }
    }
  }

  /** The Map built from a list without duplicate ids is that list. */
  lemma {:induction false} BuildMapOfDistinct(e: seq<Message>)
    requires DistinctIds(e)
    ensures BuildMap(e) == e
  {
    if e != [] {
      var p := e[..|e| - 1];
      DistinctPrefix(e);
      BuildMapOfDistinct(p);
      MapSetAppends(p, e[|e| - 1]);
      assert e == p + [e[|e| - 1]];
    }
  }

  // ---------------------------------------------------------------- mergeMessages

  /** `t` is a placeholder for `msg`: a temporary message of the same sender with the
      same content, created less than a minute apart. */
  predicate Matches(t: Message, msg: Message) {
    && t.isTemp
    && t.senderId == msg.senderId
    && t.content == msg.content
    && -60000 < t.createdAt - msg.createdAt < 60000
  }

  /** `existing.find(...)`: the first placeholder for `msg`, if any. */
  function FindTemp(e: seq<Message>, msg: Message): (r: Option<Message>)
    ensures r.None? <==> forall k :: 0 <= k < |e| ==> !Matches(e[k], msg)
    ensures r.Some? ==> exists k :: 0 <= k < |e| && e[k] == r.value && Matches(e[k], msg)
                                   && forall k' :: 0 <= k' < k ==> !Matches(e[k'], msg)
  {
    if e == [] then None
    else if Matches(e[0], msg) then Some(e[0])
    else
      var r := FindTemp(e[1..], msg);
      assert forall k :: 1 <= k < |e| ==> e[k] == e[1..][k - 1];
      r
  }

  /** The id whose entry an incoming message deletes before it is set, if any: only a
      message that is not temporary looks for a placeholder, in the original list. */
  function RemovedBy(e: seq<Message>, msg: Message): Option<Id> {
    if !msg.isTemp && FindTemp(e, msg).Some? then Some(FindTemp(e, msg).value.id) else None
  }

  /** The body of the loop over incoming messages: delete the placeholder's entry, if
      any, then set the message under its own id. */
  function Step(e: seq<Message>, m: seq<Message>, msg: Message): seq<Message> {
    match RemovedBy(e, msg)
    case Some(p) => MapSet(MapDelete(m, p), msg)
    case None => MapSet(m, msg)
  }

  /** The Map after the incoming messages `n` have been processed, starting from `m`. */
  function MergeFold(e: seq<Message>, m: seq<Message>, n: seq<Message>): seq<Message> {
    if n == [] then m else Step(e, MergeFold(e, m, n[..|n| - 1]), n[|n| - 1])
  }

  /** The ids of the placeholders deleted while `n` is processed: at most one per incoming
      message, each the id of a temporary message of the existing list, and none at all
      for a batch of temporary messages. */
  function PlaceholderIds(e: seq<Message>, n: seq<Message>): (r: set<Id>)
    ensures |r| <= |n|
    ensures forall p :: p in r ==> exists k :: 0 <= k < |e| && e[k].isTemp && e[k].id == p
    ensures (forall j :: 0 <= j < |n| ==> n[j].isTemp) ==> r == {}
  {
    if n == [] then {}
    else
      var r' := PlaceholderIds(e, n[..|n| - 1]);
      match RemovedBy(e, n[|n| - 1])
      case Some(p) => r' + {p}
      case None => r'
  }

  /** `mergeMessages(existing, incoming)`, as a function of its inputs. */
  function MergeSpec(e: seq<Message>, n: seq<Message>): seq<Message> {
    SortMessagesByDate(MergeFold(e, BuildMap(e), n))
  }

  // ---------------------------------------------------------------- properties of the fold

  /** Processing incoming messages keeps the Map's keys distinct. */
  lemma {:induction false} FoldDistinct(e: seq<Message>, m: seq<Message>, n: seq<Message>)
    requires DistinctIds(m)
    ensures DistinctIds(MergeFold(e, m, n))
    decreases |n|
  {
    if n != [] {
      var r' := MergeFold(e, m, n[..|n| - 1]);
      FoldDistinct(e, m, n[..|n| - 1]);
      match RemovedBy(e, n[|n| - 1])
      case Some(q) =>
        MapDeleteDistinct(r', q);
        MapSetDistinct(MapDelete(r', q), n[|n| - 1]);
      case None =>
        MapSetDistinct(r', n[|n| - 1]);
    }
  }

  /** The Map only ever holds messages it started with or incoming ones. */
  lemma {:induction false} FoldMembers(e: seq<Message>, m: seq<Message>, n: seq<Message>, y: Message)
    requires DistinctIds(m)
    ensures y in MergeFold(e, m, n) ==> y in m || y in n
    decreases |n|
  {
    if n != [] {
      var p := n[..|n| - 1];
      var x := n[|n| - 1];
      var r' := MergeFold(e, m, p);
      assert n == p + [x];
      FoldDistinct(e, m, p);
      FoldMembers(e, m, p, y);
      match RemovedBy(e, x)
      case Some(q) =>
        MapDeleteDistinct(r', q);
        MapSetMembers(MapDelete(r', q), x, y);
        MapDeleteMembers(r', q, y);
      case None =>
        MapSetMembers(r', x, y);
    }
  }

  lemma {:induction false} PlaceholderIdsHas(e: seq<Message>, n: seq<Message>, j: int)
    requires 0 <= j < |n| && RemovedBy(e, n[j]).Some?
    ensures RemovedBy(e, n[j]).value in PlaceholderIds(e, n)
    decreases |n|
  {
    if j < |n| - 1 {
      assert n[..|n| - 1][j] == n[j];
      PlaceholderIdsHas(e, n[..|n| - 1], j);
    }
  }

  /** An incoming message stays in the Map unless a later incoming message sets its id
      again or deletes it as a placeholder. */
  lemma {:induction false} FoldKeepsIncoming(e: seq<Message>, m: seq<Message>, n: seq<Message>, i: int)
    requires DistinctIds(m)
    requires 0 <= i < |n| && LastWithId(n, i)
    requires n[i].id !in PlaceholderIds(e, n[i + 1..])
    ensures n[i] in MergeFold(e, m, n)
    decreases |n|
  {
    var p := n[..|n| - 1];
    var x := n[|n| - 1];
    var r' := MergeFold(e, m, p);
    FoldDistinct(e, m, p);
    if i == |n| - 1 {
      match RemovedBy(e, x)
      case Some(q) =>
        MapDeleteDistinct(r', q);
        MapSetMembers(MapDelete(r', q), x, x);
      case None =>
        MapSetMembers(r', x, x);
    } else {
      assert n[i + 1..][..|n[i + 1..]| - 1] == p[i + 1..];
      assert n[i + 1..][|n[i + 1..]| - 1] == x;
      assert p[i] == n[i];
      assert LastWithId(p, i);
      FoldKeepsIncoming(e, m, p, i);
      assert n[i].id != x.id;
      match RemovedBy(e, x)
      case Some(q) =>
        assert q in PlaceholderIds(e, n[i + 1..]);
        MapDeleteMembers(r', q, n[i]);
        MapDeleteDistinct(r', q);
        MapSetMembers(MapDelete(r', q), x, n[i]);
      case None =>
        MapSetMembers(r', x, n[i]);
    }
  }

  /** An entry the Map started with stays unless an incoming message has its id or it is
      deleted as a placeholder. */
  lemma {:induction false} FoldKeepsExisting(e: seq<Message>, m: seq<Message>, n: seq<Message>, y: Message)
    requires DistinctIds(m)
    requires y in m && !HasId(n, y.id) && y.id !in PlaceholderIds(e, n)
    ensures y in MergeFold(e, m, n)
    decreases |n|
  {
    if n != [] {
      var p := n[..|n| - 1];
      var x := n[|n| - 1];
      var r' := MergeFold(e, m, p);
      assert !HasId(p, y.id);
      FoldKeepsExisting(e, m, p, y);
      FoldDistinct(e, m, p);
      if x.id == y.id { HasIdWitness(n, |n| - 1); }
      match RemovedBy(e, x)
      case Some(q) =>
        MapDeleteMembers(r', q, y);
        MapDeleteDistinct(r', q);
        MapSetMembers(MapDelete(r', q), x, y);
      case None =>
        MapSetMembers(r', x, y);
    }
  }

  /** A deleted placeholder id stays absent unless an incoming message carries it. */
  lemma {:induction false} FoldRemovesPlaceholder(e: seq<Message>, m: seq<Message>, n: seq<Message>, q: Id)
    requires q in PlaceholderIds(e, n) && !HasId(n, q)
    ensures !HasId(MergeFold(e, m, n), q)
    decreases |n|
  {
    var p := n[..|n| - 1];
    var x := n[|n| - 1];
    var r' := MergeFold(e, m, p);
    assert !HasId(p, q);
    HasIdWitness(n, |n| - 1);
    if q in PlaceholderIds(e, p) {
      FoldRemovesPlaceholder(e, m, p, q);
    }
    match RemovedBy(e, x)
    case Some(q') =>
      MapDeleteKeys(r', q', q);
      MapSetKeys(MapDelete(r', q'), x, q);
    case None =>
      MapSetKeys(r', x, q);
  }

  // ---------------------------------------------------------------- mergeMessages

  /** `mergeMessages`: fills the Map from the existing list, processes the incoming batch
      (dropping at most one placeholder per message), then sorts the Map's values. The
      result has no two messages with the same id, is in `createdAt` order, and holds
      only existing or incoming messages. */
  method MergeMessages(existing: seq<Message>, incoming: seq<Message>) returns (r: seq<Message>)
    ensures r == MergeSpec(existing, incoming)
    ensures DistinctIds(r) && SortedByDate(r)
    ensures forall y :: y in r ==> y in existing || y in incoming
  {
    var entries: seq<Message> := [];
    var i := 0;
    while i < |existing|
      invariant 0 <= i <= |existing|
      invariant entries == BuildMap(existing[..i])
    {
      assert existing[..i + 1][..i] == existing[..i];
      entries := MapSet(entries, existing[i]);
      i := i + 1;
    }
    assert existing[..i] == existing;
    ghost var start := entries;
    var j := 0;
    while j < |incoming|
      invariant 0 <= j <= |incoming|
      invariant entries == MergeFold(existing, start, incoming[..j])
    {
      var msg := incoming[j];
      if !msg.isTemp {
        var temp := FindTemp(existing, msg);
        if temp.Some? {
          entries := MapDelete(entries, temp.value.id);
        }
      }
      entries := MapSet(entries, msg);
      assert incoming[..j + 1][..j] == incoming[..j];
      j := j + 1;
    }
    assert incoming[..j] == incoming;
    r := SortMessagesByDate(entries);
    BuildMapProps(existing);
    FoldDistinct(existing, start, incoming);
    SortDistinct(entries);
    SortSorts(entries);
    SortPermutes(entries);
    forall y | y in r ensures y in existing || y in incoming {
      assert y in multiset(entries);
      FoldMembers(existing, start, incoming, y);
    }
  }

  /** Every incoming message is in the result unless a later one with the same id
      supersedes it or a later one deletes its id as a placeholder. */
  lemma MergeKeepsIncoming(e: seq<Message>, n: seq<Message>, i: int)
    requires 0 <= i < |n| && LastWithId(n, i)
    requires n[i].id !in PlaceholderIds(e, n[i + 1..])
    ensures n[i] in MergeSpec(e, n)
  {
    BuildMapProps(e);
    FoldKeepsIncoming(e, BuildMap(e), n, i);
    SortPermutes(MergeFold(e, BuildMap(e), n));
    assert n[i] in multiset(MergeFold(e, BuildMap(e), n));
  }

  /** An existing message (the last one with its id) survives unless an incoming message
      has its id or it is the placeholder some incoming message removed. */
  lemma MergeKeepsExisting(e: seq<Message>, n: seq<Message>, i: int)
    requires 0 <= i < |e| && LastWithId(e, i)
    requires !HasId(n, e[i].id) && e[i].id !in PlaceholderIds(e, n)
    ensures e[i] in MergeSpec(e, n)
  {
    BuildMapProps(e);
    FoldKeepsExisting(e, BuildMap(e), n, e[i]);
    SortPermutes(MergeFold(e, BuildMap(e), n));
    assert e[i] in multiset(MergeFold(e, BuildMap(e), n));
  }

  /** The first placeholder found for a non-temporary incoming message is gone from the
      result, unless some incoming message carries the same id. */
  lemma MergeRemovesPlaceholder(e: seq<Message>, n: seq<Message>, j: int)
    requires 0 <= j < |n| && !n[j].isTemp && FindTemp(e, n[j]).Some?
    requires !HasId(n, FindTemp(e, n[j]).value.id)
    ensures !HasId(MergeSpec(e, n), FindTemp(e, n[j]).value.id)
  {
    var q := FindTemp(e, n[j]).value.id;
    var f := MergeFold(e, BuildMap(e), n);
    PlaceholderIdsHas(e, n, j);
    FoldRemovesPlaceholder(e, BuildMap(e), n, q);
    SortPermutes(f);
    HasIdPermutation(f, SortMessagesByDate(f), q);
  }

  // ---------------------------------------------------------------- idempotence

  /** The position of the last incoming message with a given id. */
  function LastIndexOf(n: seq<Message>, id: Id): (i: nat)
    requires HasId(n, id)
    ensures i < |n| && n[i].id == id && LastWithId(n, i)
  {
    if n[|n| - 1].id == id then |n| - 1
    else
      assert HasId(n[..|n| - 1], id) by {
        var k :| 0 <= k < |n| && n[k].id == id;
        assert n[..|n| - 1][k].id == id;
      }
      LastIndexOf(n[..|n| - 1], id)
  }

  /** The last message with an id is the final one when that carries the id, and
      otherwise the last one before it. */
  lemma LastIndexSnoc(n: seq<Message>, id: Id)
    requires n != []
    ensures var p := n[..|n| - 1];
            && (HasId(n, id) <==> HasId(p, id) || n[|n| - 1].id == id)
            && (n[|n| - 1].id == id ==> LastIndexOf(n, id) == |n| - 1)
            && (n[|n| - 1].id != id && HasId(n, id) ==> LastIndexOf(n, id) == LastIndexOf(p, id))
  {
    var p := n[..|n| - 1];
    if HasId(p, id) {
      var j :| 0 <= j < |p| && p[j].id == id;
      HasIdWitness(n, j);
    }
    if HasId(n, id) && n[|n| - 1].id != id {
      var j :| 0 <= j < |n| && n[j].id == id;
      HasIdWitness(p, j);
    }
  }

  /** When no incoming message finds a placeholder and every id it carries is already in
      the Map, processing the batch keeps the Map's length, and sets each entry to the
      last incoming value with its id and leaves the others alone. */
  lemma {:induction false} FoldOnlySets(e: seq<Message>, m: seq<Message>, n: seq<Message>, k: int)
    requires DistinctIds(m)
    requires forall j :: 0 <= j < |n| ==> RemovedBy(e, n[j]).None? && HasId(m, n[j].id)
    ensures |MergeFold(e, m, n)| == |m|
    ensures 0 <= k < |m| ==>
      MergeFold(e, m, n)[k] == if HasId(n, m[k].id) then n[LastIndexOf(n, m[k].id)] else m[k]
    decreases |n|
  {
    if n != [] {
      var p := n[..|n| - 1];
      var x := n[|n| - 1];
      assert forall j :: 0 <= j < |p| ==> p[j] == n[j];
      var r' := MergeFold(e, m, p);
      FoldDistinct(e, m, p);
      var kx :| 0 <= kx < |m| && m[kx].id == x.id;
      FoldOnlySets(e, m, p, kx);
      assert r'[kx].id == x.id by {
        if HasId(p, x.id) { var _ := LastIndexOf(p, x.id); }
      }
      HasIdWitness(r', kx);
      MapSetReplaces(r', x);
      assert MergeFold(e, m, n) == MapSet(r', x);
      if 0 <= k < |m| {
        FoldOnlySets(e, m, p, k);
        var id := m[k].id;
        LastIndexSnoc(n, id);
        if HasId(p, id) {
          var _ := LastIndexOf(p, id);
        }
        assert r'[k].id == id;
      } else {
        FoldOnlySets(e, m, p, k);
      }
    }
  }

  /** The conditions under which merging a batch twice is the same as merging it once:
      every incoming message is a confirmed (non-temporary) one, each matches at most
      one placeholder, and none reuses the id of a temporary message. */
  predicate SettledBatch(e: seq<Message>, n: seq<Message>) {
    && (forall j :: 0 <= j < |n| ==> !n[j].isTemp)
    && (forall j, k1, k2 ::
          (0 <= j < |n| && 0 <= k1 < |e| && 0 <= k2 < |e| && Matches(e[k1], n[j]) && Matches(e[k2], n[j]))
          ==> k1 == k2)
    && (forall j, k :: 0 <= j < |n| && 0 <= k < |e| && e[k].isTemp ==> n[j].id != e[k].id)
  }

  /** For a settled batch, the last incoming message with each id is in the result. */
  lemma IncomingLastPresent(e: seq<Message>, n: seq<Message>, j: int)
    requires SettledBatch(e, n) && 0 <= j < |n|
    ensures n[LastIndexOf(n, n[j].id)] in MergeSpec(e, n)
  {
    HasIdWitness(n, j);
    var i := LastIndexOf(n, n[j].id);
    assert n[i].id !in PlaceholderIds(e, n[i + 1..]);
    MergeKeepsIncoming(e, n, i);
  }

  /** For a settled batch, no incoming message finds a placeholder in the merged list. */
  lemma NoPlaceholderLeft(e: seq<Message>, n: seq<Message>, j: int)
    requires SettledBatch(e, n) && 0 <= j < |n|
    ensures RemovedBy(MergeSpec(e, n), n[j]).None?
  {
    var m0 := BuildMap(e);
    var f := MergeFold(e, m0, n);
    var r1 := MergeSpec(e, n);
    BuildMapProps(e);
    SortPermutes(f);
    if FindTemp(r1, n[j]).Some? {
      var t := FindTemp(r1, n[j]).value;
      assert Matches(t, n[j]);
      assert t in multiset(f);
      var kf :| 0 <= kf < |f| && f[kf] == t;
      HasIdWitness(f, kf);
      FoldMembers(e, m0, n, t);
      assert t !in n;
      var k0 :| 0 <= k0 < |e| && e[k0] == t;
      assert FindTemp(e, n[j]) == Some(t);
      PlaceholderIdsHas(e, n, j);
      assert !HasId(n, t.id);
      FoldRemovesPlaceholder(e, m0, n, t.id);
      assert false;
    }
  }

  /** Merging the same settled batch a second time changes nothing. */
  lemma MergeIdempotent(e: seq<Message>, n: seq<Message>)
    requires SettledBatch(e, n)
    ensures MergeSpec(MergeSpec(e, n), n) == MergeSpec(e, n)
  {
    var m0 := BuildMap(e);
    var f := MergeFold(e, m0, n);
    var r1 := MergeSpec(e, n);
    BuildMapProps(e);
    FoldDistinct(e, m0, n);
    SortDistinct(f);
    SortSorts(f);
    BuildMapOfDistinct(r1);
    forall j | 0 <= j < |n| ensures RemovedBy(r1, n[j]).None? && HasId(r1, n[j].id) {
      NoPlaceholderLeft(e, n, j);
      IncomingLastPresent(e, n, j);
      var k :| 0 <= k < |r1| && r1[k] == n[LastIndexOf(n, n[j].id)];
      HasIdWitness(r1, k);
    }
    var f2 := MergeFold(r1, r1, n);
    FoldOnlySets(r1, r1, n, 0);
    forall k | 0 <= k < |r1| ensures f2[k] == r1[k] {
      FoldOnlySets(r1, r1, n, k);
      if HasId(n, r1[k].id) {
        var i := LastIndexOf(n, r1[k].id);
        IncomingLastPresent(e, n, i);
        var k' :| 0 <= k' < |r1| && r1[k'] == n[i];
      }
    }
    assert f2 == r1;
    SortKeepsSorted(r1);
  }

  // ---------------------------------------------------------------- message predicates

  /** `isTempMessage`: the id starts with "temp-". */
  function IsTempMessage(m: Message): (r: bool)
    ensures r <==> |m.id| >= 5 && m.id[..5] == "temp-"
  {
    StartsWith(m.id, "temp-")
  }

  /** `isOwnMessage`. */
  function IsOwnMessage(m: Message, currentUserId: Id): (r: bool)
    ensures r <==> m.senderId == currentUserId
  {
    m.senderId == currentUserId
  }

  /** `isMessageRead`: a read-by list is given and is not empty; the message itself is
      not consulted. */
  function IsMessageRead(m: Message, readBy: Option<seq<Id>>): (r: bool)
    ensures r <==> readBy.Some? && readBy.value != []
  {
    readBy.Some? && |readBy.value| > 0
  }
}
