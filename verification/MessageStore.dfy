/**
 Messages and the document store (internal/store/mongo.go:18-29, 141-177, and the
 conversions in internal/service/msg.go:140-158, 191-206): a collection with a
 unique (channel, id) key, read in id order.
 */
module MessageStore {
  import opened Prelude

  datatype SenderInfo = SenderInfo(id: int, name: string, headImage: string, rank: int, alliance: string)

  datatype Message = Message(
    id: int, channel: string, channelType: int, sender: Option<SenderInfo>,
    content: string, msgType: int, msgParam: seq<string>, sendTime: int, clientMsgId: string)

  datatype Doc = Doc(
    id: int, channel: string, channelType: int, senderId: int, senderName: string,
    content: string, msgType: int, msgParam: seq<string>, sendTime: int)

  function ToDoc(m: Message): Doc {
    Doc(m.id, m.channel, m.channelType,
        if m.sender.Some? then m.sender.value.id else 0,
        if m.sender.Some? then m.sender.value.name else "",
        m.content, m.msgType, m.msgParam, m.sendTime)
  }

  function FromDoc(d: Doc): Message {
    Message(d.id, d.channel, d.channelType, Some(SenderInfo(d.senderId, d.senderName, "", 0, "")),
            d.content, d.msgType, d.msgParam, d.sendTime, "")
  }

  datatype Key = Key(channel: string, id: int)
  type Collection = map<Key, Doc>

  function KeyOf(d: Doc): Key { Key(d.channel, d.id) }

  // ---------------------------------------------------------------------
  // Inserting
  // ---------------------------------------------------------------------

  /** An unordered insert of a batch skips documents whose key is taken. */
  function InsertAll(c: Collection, docs: seq<Doc>): Collection {
    if docs == [] then c
    else
      var c' := InsertAll(c, docs[..|docs| - 1]);
      var d := docs[|docs| - 1];
      if KeyOf(d) in c' then c' else c'[KeyOf(d) := d]
  }

  /** `docs[i]` is the first document with its key. */
  predicate FirstOfKey(docs: seq<Doc>, i: int) {
    0 <= i < |docs| && forall j :: 0 <= j < i ==> KeyOf(docs[j]) != KeyOf(docs[i])
  }

  ghost predicate HasKey(docs: seq<Doc>, k: Key) {
    exists i :: 0 <= i < |docs| && KeyOf(docs[i]) == k
  }

  /** The keys after an insert are the old ones and those of the batch; old documents stay. */
  lemma {:induction false} InsertKeys(c: Collection, docs: seq<Doc>, k: Key)
    ensures k in InsertAll(c, docs) <==> k in c || HasKey(docs, k)
    ensures k in c ==> InsertAll(c, docs)[k] == c[k]
    decreases |docs|
  {
    if docs != [] {
      var n := |docs| - 1;
      InsertKeys(c, docs[..n], k);
      if HasKey(docs[..n], k) {
        var i :| 0 <= i < n && KeyOf(docs[..n][i]) == k;
        assert KeyOf(docs[i]) == k;
      } else {
        forall i | 0 <= i < n ensures KeyOf(docs[i]) != k {
          assert docs[..n][i] == docs[i];
        }
      }
    }
  }

  lemma {:induction false} InsertAppend(c: Collection, docs: seq<Doc>, more: seq<Doc>)
    ensures InsertAll(c, docs + more) == InsertAll(InsertAll(c, docs), more)
    decreases |more|
  {
    if more == [] {
      assert docs + more == docs;
    } else {
      assert (docs + more)[..|docs + more| - 1] == docs + more[..|more| - 1];
      InsertAppend(c, docs, more[..|more| - 1]);
    }
  }

  /** Of the new documents with one key the first wins. */
  lemma {:induction false} FirstWins(c: Collection, docs: seq<Doc>, i: nat)
    requires FirstOfKey(docs, i) && KeyOf(docs[i]) !in c
    ensures KeyOf(docs[i]) in InsertAll(c, docs) && InsertAll(c, docs)[KeyOf(docs[i])] == docs[i]
  {
    var k := KeyOf(docs[i]);
    InsertKeys(c, docs[..i], k);
    assert docs[..i + 1][..i] == docs[..i];
    assert InsertAll(c, docs[..i + 1]) == InsertAll(c, docs[..i])[k := docs[i]];
    InsertAppend(c, docs[..i + 1], docs[i + 1..]);
    assert docs[..i + 1] + docs[i + 1..] == docs;
    InsertKeys(InsertAll(c, docs[..i + 1]), docs[i + 1..], k);
  }

  // ---------------------------------------------------------------------
  // Reading
  // ---------------------------------------------------------------------

  ghost predicate Increasing(xs: seq<int>) {
    forall i, j :: 0 <= i < j < |xs| ==> xs[i] < xs[j]
  }

  predicate IsMin(ids: set<int>, m: int) { m in ids && forall x :: x in ids ==> m <= x }

  lemma {:induction false} MinBelow(ids: set<int>, a: int) returns (m: int)
    requires a in ids
    ensures IsMin(ids, m)
    decreases |ids|
  {
    if b :| b in ids && b < a {
      m := MinBelow(ids - {a}, b);
      assert ids == (ids - {a}) + {a};
    } else {
      m := a;
    }
  }

  lemma MinExists(ids: set<int>)
    requires ids != {}
    ensures exists m :: IsMin(ids, m)
  {
    assert (forall a :: a !in ids) ==> ids == {};
    var a :| a in ids;
    var m := MinBelow(ids, a);
  }

  function Min(ids: set<int>): (m: int)
    requires ids != {}
    ensures IsMin(ids, m)
  {
    MinExists(ids);
    var m :| IsMin(ids, m);
    m
  }

  /** The elements of a set in ascending order. */
  function Sorted(ids: set<int>): seq<int>
    decreases |ids|
  {
    if ids == {} then [] else [Min(ids)] + Sorted(ids - {Min(ids)})
  }

  lemma {:induction false} SortedSound(ids: set<int>)
    ensures Increasing(Sorted(ids)) && |Sorted(ids)| == |ids|
    ensures forall i :: 0 <= i < |Sorted(ids)| ==> Sorted(ids)[i] in ids
    decreases |ids|
  {
    if ids != {} {
      SortedSound(ids - {Min(ids)});
    }
  }

  predicate Contains(xs: seq<int>, x: int) { exists i :: 0 <= i < |xs| && xs[i] == x }

  lemma {:induction false} SortedComplete(ids: set<int>, x: int)
    requires x in ids
    ensures Contains(Sorted(ids), x)
    decreases |ids|
  {
    var m := Min(ids);
    if x == m {
      assert Sorted(ids)[0] == x;
    } else {
      SortedComplete(ids - {m}, x);
      var i :| 0 <= i < |Sorted(ids - {m})| && Sorted(ids - {m})[i] == x;
      assert Sorted(ids)[i + 1] == x;
    }
  }

  /** An ascending sequence is determined by its elements. */
  lemma {:induction false} SortedUnique(xs: seq<int>, ids: set<int>)
    requires Increasing(xs)
    requires forall i :: 0 <= i < |xs| ==> xs[i] in ids
    requires forall x :: x in ids ==> Contains(xs, x)
    ensures Sorted(ids) == xs
    decreases |xs|
  {
    if xs == [] {
      assert forall x :: x !in ids;
    } else {
      var tail := xs[1..];
      assert xs[0] in ids;
      assert Contains(xs, Min(ids));
      assert Min(ids) == xs[0];
      forall x | x in ids - {xs[0]} ensures Contains(tail, x) {
        var i :| 0 <= i < |xs| && xs[i] == x;
        assert tail[i - 1] == x;
      }
      SortedUnique(tail, ids - {xs[0]});
    }
  }

  function NewerIds(c: Collection, ch: string, last: int): set<int> {
    set k | k in c && k.channel == ch && k.id > last :: k.id
  }

  function DocsFor(c: Collection, ch: string, ids: seq<int>): seq<Doc>
    requires forall i :: 0 <= i < |ids| ==> Key(ch, ids[i]) in c
  {
    seq(|ids|, i requires 0 <= i < |ids| => c[Key(ch, ids[i])])
  }

  /** Every stored message of the channel after `last`, in id order. */
  function AllNewer(c: Collection, ch: string, last: int): (r: seq<Doc>)
    ensures |r| == |NewerIds(c, ch, last)|
  {
    var ids := Sorted(NewerIds(c, ch, last));
    SortedSound(NewerIds(c, ch, last));
    DocsFor(c, ch, ids)
  }

  /** Every document is stored under its own key. */
  predicate KeysMatch(c: Collection) { forall k :: k in c ==> KeyOf(c[k]) == k }

  /** AllNewer lists exactly the stored documents of the channel after `last`, each once, in ascending order. */
  lemma AllNewerSound(c: Collection, ch: string, last: int)
    requires KeysMatch(c)
    ensures var r := AllNewer(c, ch, last);
            && (forall i, j :: 0 <= i < j < |r| ==> r[i].id < r[j].id)
            && (forall i :: 0 <= i < |r| ==> r[i].channel == ch && r[i].id > last && KeyOf(r[i]) in c && c[KeyOf(r[i])] == r[i])
            && (forall k :: k in c && k.channel == ch && k.id > last ==> exists i :: 0 <= i < |r| && r[i] == c[k])
  {
    var newer, r := NewerIds(c, ch, last), AllNewer(c, ch, last);
    var ids := Sorted(newer);
    SortedSound(newer);
    forall k | k in c && k.channel == ch && k.id > last ensures exists i :: 0 <= i < |r| && r[i] == c[k] {
      assert k.id in newer;
      SortedComplete(newer, k.id);
      var i :| 0 <= i < |ids| && ids[i] == k.id;
      assert r[i] == c[Key(ch, ids[i])];
    }
  }

  /** Lines 157-177; a limit of 0 means none. */
  function QueryMessages(c: Collection, ch: string, last: int, limit: nat): seq<Doc> {
    var all := AllNewer(c, ch, last);
    if limit == 0 || |all| <= limit then all else all[..limit]
  }
}
