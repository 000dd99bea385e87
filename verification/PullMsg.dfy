/**
 Pulling messages (internal/service/msg.go:171-208): a Redis list of the newest
 messages (internal/store/redis.go:306-331, 494-498) in front of the store.
 */
module PullMsg {
  import opened Prelude
  import opened MessageStore

  const MSG_CACHE_MAX_LEN: nat := 200
  const MAX_PULL_LIMIT: nat := 50

  /** A cached entry; nothing when its bytes do not unmarshal. */
  type Entry = Option<Message>

  // ---------------------------------------------------------------------
  // The cache
  // ---------------------------------------------------------------------

  /** LPUSH, then LTRIM to the newest 200. */
  function CachePush(list: seq<Entry>, m: Message): seq<Entry> {
    var pushed := [Some(m)] + list;
    if |pushed| <= MSG_CACHE_MAX_LEN then pushed else pushed[..MSG_CACHE_MAX_LEN]
  }

  /** The cache after the messages were pushed in order. */
  function CacheOf(sent: seq<Message>): seq<Entry> {
    if sent == [] then [] else CachePush(CacheOf(sent[..|sent| - 1]), sent[|sent| - 1])
  }

  function Newer(e: Entry, last: int): seq<Message> {
    if e.Some? && e.value.id > last then [e.value] else []
  }

  /** The readable entries after `last`, oldest first. */
  function NewerEntries(list: seq<Entry>, last: int): seq<Message> {
    if list == [] then [] else NewerEntries(list[1..], last) + Newer(list[0], last)
  }

  lemma {:induction false} EntryNext(list: seq<Entry>, i: nat, last: int)
    requires i < |list|
    ensures NewerEntries(list[i..], last) == NewerEntries(list[i + 1..], last) + Newer(list[i], last)
  {
    assert list[i..][1..] == list[i + 1..];
  }

  /** LRANGE of the first 200 entries. */
  function Front(list: seq<Entry>): seq<Entry> {
    if |list| <= MSG_CACHE_MAX_LEN then list else list[..MSG_CACHE_MAX_LEN]
  }

  /** The newest `limit` of them. */
  function CacheRead(list: seq<Entry>, last: int, limit: int): seq<Message> {
    var msgs := NewerEntries(Front(list), last);
    if limit > 0 && |msgs| > limit then msgs[|msgs| - limit..] else msgs
  }

  /** Lines 306-331: walk the list backwards, keep what is newer, cut from the front. */
  method GetMsgCache(list: seq<Entry>, last: int, limit: int) returns (msgs: seq<Message>)
    ensures msgs == CacheRead(list, last, limit)
  {
    var data := Front(list);
    msgs := [];
    var i := |data| - 1;
    while i >= 0
      invariant -1 <= i < |data|
      invariant msgs == NewerEntries(data[i + 1..], last)
    {
      EntryNext(data, i, last);
      if data[i].Some? && data[i].value.id > last {
        msgs := msgs + [data[i].value];
      }
      i := i - 1;
    }
    assert data[0..] == data;
    if limit > 0 && |msgs| > limit {
      msgs := msgs[|msgs| - limit..];
    }
  }

  // ---------------------------------------------------------------------
  // Pulling
  // ---------------------------------------------------------------------

  function PullLimit(limit: int): (r: nat)
    ensures 1 <= limit <= 50 ==> r == limit
    ensures !(1 <= limit <= 50) ==> r == 50
  {
    if limit <= 0 || limit > MAX_PULL_LIMIT then MAX_PULL_LIMIT else limit
  }

  function FromDocs(docs: seq<Doc>): seq<Message> {
    seq(|docs|, i requires 0 <= i < |docs| => FromDoc(docs[i]))
  }

  function ToDocs(msgs: seq<Message>): seq<Doc> {
    seq(|msgs|, i requires 0 <= i < |msgs| => ToDoc(msgs[i]))
  }

  /** Lines 191-206: the messages of the documents, in order. */
  method Rebuild(docs: seq<Doc>) returns (result: seq<Message>)
    ensures result == FromDocs(docs) && ToDocs(result) == docs
  {
    result := [];
    for i := 0 to |docs|
      invariant result == FromDocs(docs[..i])
    {
      assert docs[..i + 1] == docs[..i] + [docs[i]];
      result := result + [FromDoc(docs[i])];
    }
    assert docs[..|docs|] == docs;
    DocsBack(docs);
  }

  /** The answer to a pull: from the cache if it has any, else from the store; an error is None. */
  function Pulled(cache: Option<seq<Entry>>, store: Option<Collection>, ch: string, last: int, limit: int): Option<seq<Message>> {
    var n := PullLimit(limit);
    var hits := if cache.Some? then CacheRead(cache.value, last, n) else [];
    if hits != [] then Some(hits)
    else if store.None? then None
    else Some(FromDocs(QueryMessages(store.value, ch, last, n)))
  }

  /** Lines 171-208; `cache` or `store` is an error when that read fails. */
  method Pull(cache: Option<seq<Entry>>, store: Option<Collection>, ch: string, last: int, limit: int)
    returns (r: Option<seq<Message>>)
    ensures r == Pulled(cache, store, ch, last, limit)
    ensures r.Some? ==> |r.value| <= if 1 <= limit <= 50 then limit else 50
    ensures r.None? ==> store.None?
    ensures store.Some? && KeysMatch(store.value) && r.Some? ==> forall i :: 0 <= i < |r.value| ==> r.value[i].id > last
  {
    PulledBounds(cache, store, ch, last, limit);
    var n := limit;
    if n <= 0 || n > MAX_PULL_LIMIT {
      n := MAX_PULL_LIMIT;
    }
    if cache.Some? {
      var msgs := GetMsgCache(cache.value, last, n);
      if |msgs| > 0 {
        return Some(msgs);
      }
    }
    if store.None? {
      return None;
    }
    var result := Rebuild(QueryMessages(store.value, ch, last, n));
    return Some(result);
  }

  lemma {:induction false} EntriesNewer(list: seq<Entry>, last: int)
    ensures forall i :: 0 <= i < |NewerEntries(list, last)| ==> NewerEntries(list, last)[i].id > last
  {
    if list != [] {
      EntriesNewer(list[1..], last);
    }
  }

  lemma HitsBounded(list: seq<Entry>, last: int, n: nat)
    requires n >= 1
    ensures |CacheRead(list, last, n)| <= n
    ensures forall i :: 0 <= i < |CacheRead(list, last, n)| ==> CacheRead(list, last, n)[i].id > last
  {
    EntriesNewer(Front(list), last);
  }

  lemma DocsBounded(c: Collection, ch: string, last: int, n: nat)
    requires n >= 1
    ensures |QueryMessages(c, ch, last, n)| <= n
    ensures KeysMatch(c) ==> forall i :: 0 <= i < |QueryMessages(c, ch, last, n)| ==> QueryMessages(c, ch, last, n)[i].id > last
  {
    if KeysMatch(c) {
      AllNewerSound(c, ch, last);
    }
  }

  /** No more messages than asked for, all of them newer. */
  lemma PulledBounds(cache: Option<seq<Entry>>, store: Option<Collection>, ch: string, last: int, limit: int)
    ensures var r := Pulled(cache, store, ch, last, limit);
            && (r.Some? ==> |r.value| <= if 1 <= limit <= 50 then limit else 50)
            && (store.Some? && KeysMatch(store.value) && r.Some? ==> forall i :: 0 <= i < |r.value| ==> r.value[i].id > last)
  {
    if cache.Some? {
      HitsBounded(cache.value, last, PullLimit(limit));
    }
    if store.Some? {
      DocsBounded(store.value, ch, last, PullLimit(limit));
    }
  }

  /** Entries that do not unmarshal make no difference. */
  lemma {:induction false} CorruptSkipped(front: seq<Entry>, back: seq<Entry>, last: int)
    ensures NewerEntries(front + [None] + back, last) == NewerEntries(front + back, last)
  {
    var list := front + [None] + back;
    if front == [] {
      assert list[1..] == back && front + back == back;
    } else {
      assert list[1..] == front[1..] + [None] + back && (front + back)[1..] == front[1..] + back;
      CorruptSkipped(front[1..], back, last);
    }
  }

  // ---------------------------------------------------------------------
  // Cache and store compared
  // ---------------------------------------------------------------------

  /** `sent` are the messages of channel `ch`, in id order. */
  ghost predicate InIdOrder(sent: seq<Message>, ch: string) {
    && (forall i :: 0 <= i < |sent| ==> sent[i].channel == ch)
    && (forall i, j :: 0 <= i < j < |sent| ==> sent[i].id < sent[j].id)
  }

  /** The store holds exactly the messages `sent` for channel `ch`. */
  ghost predicate Stores(c: Collection, ch: string, sent: seq<Message>) {
    && (forall i :: 0 <= i < |sent| ==> Key(ch, sent[i].id) in c && c[Key(ch, sent[i].id)] == ToDoc(sent[i]))
    && (forall k :: k in c && k.channel == ch ==> exists i :: 0 <= i < |sent| && sent[i].id == k.id)
  }

  /** `k` of the messages are not newer than `last`. */
  ghost predicate Cut(sent: seq<Message>, last: int, k: nat) {
    && k <= |sent|
    && (forall i :: 0 <= i < k ==> sent[i].id <= last)
    && (forall i :: k <= i < |sent| ==> sent[i].id > last)
  }

  lemma {:induction false} CutExists(sent: seq<Message>, ch: string, last: int) returns (k: nat)
    requires InIdOrder(sent, ch)
    ensures Cut(sent, last, k)
  {
    k := |sent|;
    while k > 0 && sent[k - 1].id > last
      invariant k <= |sent| && forall i :: k <= i < |sent| ==> sent[i].id > last
    {
      k := k - 1;
    }
  }

  /** The cache holds the newest 200 messages, newest first. */
  lemma {:induction false} CacheHolds(sent: seq<Message>)
    ensures |CacheOf(sent)| == if |sent| <= 200 then |sent| else 200
    ensures forall i :: 0 <= i < |CacheOf(sent)| ==> CacheOf(sent)[i] == Some(sent[|sent| - 1 - i])
  {
    if sent != [] {
      CacheHolds(sent[..|sent| - 1]);
    }
  }

  /** `list` is the end of `sent`, newest first. */
  ghost predicate Mirrors(list: seq<Entry>, sent: seq<Message>) {
    |list| <= |sent| && forall i :: 0 <= i < |list| ==> list[i] == Some(sent[|sent| - 1 - i])
  }

  /** Without the newest message. */
  lemma WithoutNewest(list: seq<Entry>, sent: seq<Message>, last: int, k: nat)
    requires list != [] && Mirrors(list, sent) && Cut(sent, last, k)
    ensures var front := sent[..|sent| - 1];
            Mirrors(list[1..], front) && Cut(front, last, if k < |sent| then k else k - 1)
    ensures list[0] == Some(sent[|sent| - 1]) && (sent[|sent| - 1].id > last <==> k < |sent|)
  {
    var front := sent[..|sent| - 1];
    forall i | 0 <= i < |list| - 1 ensures list[1..][i] == Some(front[|front| - 1 - i]) {
      assert list[1..][i] == list[i + 1];
    }
  }

  lemma NewestLast(sent: seq<Message>, from: nat)
    requires from < |sent|
    ensures sent[from..] == sent[..|sent| - 1][from..] + [sent[|sent| - 1]]
  {}

  /** A newest-first list of the end of `sent` yields its newer messages, oldest first. */
  lemma {:induction false} ReadsSuffix(list: seq<Entry>, sent: seq<Message>, last: int, k: nat, from: nat)
    requires Mirrors(list, sent) && Cut(sent, last, k)
    requires from == if k >= |sent| - |list| then k else |sent| - |list|
    ensures NewerEntries(list, last) == sent[from..]
    decreases |list|
  {
    if list != [] {
      WithoutNewest(list, sent, last, k);
      if k < |sent| {
        ReadsSuffix(list[1..], sent[..|sent| - 1], last, k, from);
        NewestLast(sent, from);
      } else {
        ReadsSuffix(list[1..], sent[..|sent| - 1], last, k - 1, k - 1);
      }
    }
  }

  /** The newest `n` of a suffix. */
  lemma CutSuffix(sent: seq<Message>, from: nat, n: nat)
    requires from <= |sent| && n <= |sent| - from
    ensures sent[from..][|sent[from..]| - n..] == sent[|sent| - n..]
  {}

  /** A cache read gives the newest `n` of the newer messages. */
  lemma {:induction false} CacheGivesNewest(sent: seq<Message>, ch: string, last: int, k: nat, n: nat)
    requires InIdOrder(sent, ch) && Cut(sent, last, k) && 1 <= n <= MAX_PULL_LIMIT
    ensures CacheRead(CacheOf(sent), last, n) == if |sent| - k <= n then sent[k..] else sent[|sent| - n..]
  {
    var list := CacheOf(sent);
    CacheHolds(sent);
    var from := if k >= |sent| - |list| then k else |sent| - |list|;
    assert NewerEntries(Front(list), last) == sent[from..] by {
      ReadsSuffix(list, sent, last, k, from);
    }
    if |sent| - from > n {
      CutSuffix(sent, from, n);
    }
  }

  function Ids(msgs: seq<Message>): seq<int> {
    seq(|msgs|, i requires 0 <= i < |msgs| => msgs[i].id)
  }

  lemma IdListed(c: Collection, ch: string, sent: seq<Message>, last: int, k: nat, x: int)
    requires Stores(c, ch, sent) && Cut(sent, last, k) && x in NewerIds(c, ch, last)
    ensures Contains(Ids(sent[k..]), x)
  {
    assert Key(ch, x) in c;
    var i :| 0 <= i < |sent| && sent[i].id == x;
    assert Ids(sent[k..])[i - k] == x;
  }

  lemma ListedId(c: Collection, ch: string, sent: seq<Message>, last: int, k: nat, i: nat)
    requires Stores(c, ch, sent) && Cut(sent, last, k) && i < |sent| - k
    ensures Ids(sent[k..])[i] in NewerIds(c, ch, last)
  {
    assert Key(ch, sent[k + i].id) in c;
  }

  lemma StoredIds(c: Collection, ch: string, sent: seq<Message>, last: int, k: nat)
    requires InIdOrder(sent, ch) && Stores(c, ch, sent) && Cut(sent, last, k)
    ensures Sorted(NewerIds(c, ch, last)) == Ids(sent[k..])
  {
    var newer, ids := NewerIds(c, ch, last), Ids(sent[k..]);
    forall x | x in newer ensures Contains(ids, x) {
      IdListed(c, ch, sent, last, k, x);
    }
    forall i | 0 <= i < |ids| ensures ids[i] in newer {
      ListedId(c, ch, sent, last, k, i);
    }
    SortedUnique(ids, newer);
  }

  lemma StoredDocs(c: Collection, ch: string, sent: seq<Message>, last: int, k: nat)
    requires InIdOrder(sent, ch) && Stores(c, ch, sent) && Cut(sent, last, k)
    ensures AllNewer(c, ch, last) == ToDocs(sent[k..])
  {
    StoredIds(c, ch, sent, last, k);
    var docs, ids := AllNewer(c, ch, last), Ids(sent[k..]);
    SortedSound(NewerIds(c, ch, last));
    forall i | 0 <= i < |ids| ensures docs[i] == ToDoc(sent[k + i]) {
      assert docs[i] == c[Key(ch, ids[i])];
    }
  }

  /** A store read gives the oldest `n` of the newer messages. */
  lemma StoreGivesOldest(c: Collection, ch: string, sent: seq<Message>, last: int, k: nat, n: nat)
    requires InIdOrder(sent, ch) && Stores(c, ch, sent) && Cut(sent, last, k) && 1 <= n
    ensures QueryMessages(c, ch, last, n) == ToDocs(if |sent| - k <= n then sent[k..] else sent[k..k + n])
  {
    StoredDocs(c, ch, sent, last, k);
    if |sent| - k > n {
      assert ToDocs(sent[k..])[..n] == ToDocs(sent[k..k + n]);
    }
  }

  /**
   When the messages were cached in id order, all are stored and the cache is
   alive, a cache pull and a store pull agree on the stored fields exactly when
   no more messages are newer than `last` than the limit allows.
   */
  lemma {:induction false} PullsAgreeIff(c: Collection, ch: string, sent: seq<Message>, last: int, k: nat, n: nat)
    requires InIdOrder(sent, ch) && Stores(c, ch, sent) && Cut(sent, last, k) && 1 <= n <= MAX_PULL_LIMIT
    ensures ToDocs(CacheRead(CacheOf(sent), last, n)) == QueryMessages(c, ch, last, n) <==> |sent| - k <= n
  {
    CacheGivesNewest(sent, ch, last, k, n);
    StoreGivesOldest(c, ch, sent, last, k, n);
    if |sent| - k > n {
      var newest, oldest := ToDocs(sent[|sent| - n..]), ToDocs(sent[k..k + n]);
      assert newest[0].id == sent[|sent| - n].id && oldest[0].id == sent[k].id;
    }
  }

  /** How many messages a pull returns when `newer` are newer. */
  function Share(limit: int, newer: nat): nat {
    var asked := if 1 <= limit <= 50 then limit else 50;
    if newer <= asked then newer else asked
  }

  lemma {:induction false} NewestShare(sent: seq<Message>, ch: string, last: int, k: nat, limit: int)
    requires InIdOrder(sent, ch) && Cut(sent, last, k)
    ensures CacheRead(CacheOf(sent), last, PullLimit(limit)) == sent[|sent| - Share(limit, |sent| - k)..]
  {
    var n, hits := PullLimit(limit), CacheRead(CacheOf(sent), last, PullLimit(limit));
    var from := if |sent| - k <= n then k else |sent| - n;
    assert hits == sent[from..] by { CacheGivesNewest(sent, ch, last, k, n); }
    assert from == |sent| - Share(limit, |sent| - k);
  }

  lemma OldestShare(c: Collection, ch: string, sent: seq<Message>, last: int, k: nat, limit: int)
    requires InIdOrder(sent, ch) && Stores(c, ch, sent) && Cut(sent, last, k)
    ensures QueryMessages(c, ch, last, PullLimit(limit)) == ToDocs(sent[k..k + Share(limit, |sent| - k)])
  {
    StoreGivesOldest(c, ch, sent, last, k, PullLimit(limit));
    ShareSlice(sent, k, limit);
  }

  lemma ShareSlice(sent: seq<Message>, k: nat, limit: int)
    requires k <= |sent|
    ensures (if |sent| - k <= PullLimit(limit) then sent[k..] else sent[k..k + PullLimit(limit)])
         == sent[k..k + Share(limit, |sent| - k)]
  {
    assert sent[k..] == sent[k..|sent|];
  }

  lemma DocsBack(docs: seq<Doc>)
    ensures ToDocs(FromDocs(docs)) == docs && |FromDocs(docs)| == |docs|
  {
    forall i | 0 <= i < |docs| ensures ToDocs(FromDocs(docs))[i] == docs[i] {
      StoredFieldsSurvive(docs[i]);
    }
  }

  lemma PulledHits(list: seq<Entry>, c: Collection, ch: string, last: int, limit: int)
    ensures var hits := CacheRead(list, last, PullLimit(limit));
            Pulled(Some(list), Some(c), ch, last, limit) ==
              Some(if hits != [] then hits else FromDocs(QueryMessages(c, ch, last, PullLimit(limit))))
  {}

  lemma NothingNewer(c: Collection, ch: string, sent: seq<Message>, last: int, k: nat, limit: int)
    requires InIdOrder(sent, ch) && Stores(c, ch, sent) && Cut(sent, last, k) && k == |sent|
    ensures FromDocs(QueryMessages(c, ch, last, PullLimit(limit))) == []
  {
    OldestShare(c, ch, sent, last, k, limit);
  }

  /** With messages stored and cached in id order, a pull returns the newest `limit` of the newer ones, or all if they are fewer. */
  lemma {:induction false} PulledFromCache(c: Collection, ch: string, sent: seq<Message>, last: int, k: nat, limit: int)
    requires InIdOrder(sent, ch) && Stores(c, ch, sent) && Cut(sent, last, k)
    ensures Pulled(Some(CacheOf(sent)), Some(c), ch, last, limit) == Some(sent[|sent| - Share(limit, |sent| - k)..])
  {
    PulledHits(CacheOf(sent), c, ch, last, limit);
    NewestShare(sent, ch, last, k, limit);
    if k == |sent| {
      NothingNewer(c, ch, sent, last, k, limit);
    }
  }

  /** With messages stored and the cache empty or failing, it returns the oldest `limit` of the newer ones. */
  lemma {:induction false} PulledFromStore(c: Collection, ch: string, sent: seq<Message>, failing: bool, last: int, k: nat, limit: int)
    requires InIdOrder(sent, ch) && Stores(c, ch, sent) && Cut(sent, last, k)
    ensures var r := Pulled(if failing then None else Some([]), Some(c), ch, last, limit);
            var n := Share(limit, |sent| - k);
            r.Some? && |r.value| == n && ToDocs(r.value) == ToDocs(sent[k..k + n])
  {
    var docs := QueryMessages(c, ch, last, PullLimit(limit));
    assert docs == ToDocs(sent[k..k + Share(limit, |sent| - k)]) by { OldestShare(c, ch, sent, last, k, limit); }
    DocsBack(docs);
    assert Pulled(if failing then None else Some([]), Some(c), ch, last, limit) == Some(FromDocs(docs));
  }

  /** Of a message the store keeps all but the sender's picture, rank and alliance and the client's id. */
  lemma StoredMessageBack(m: Message)
    ensures var r := FromDoc(ToDoc(m));
            && r.id == m.id && r.channel == m.channel && r.channelType == m.channelType && r.content == m.content
            && r.msgType == m.msgType && r.msgParam == m.msgParam && r.sendTime == m.sendTime
            && (m.sender.Some? ==> r.sender.Some? && r.sender.value.id == m.sender.value.id && r.sender.value.name == m.sender.value.name)
  {}

  /** What the store returns carries every stored field. */
  lemma StoredFieldsSurvive(d: Doc)
    ensures ToDoc(FromDoc(d)) == d
  {}

  /**
   After a cache pull that was cut, a client that goes on from the last id it
   got is offered nothing more, so the older newer messages never reach it.
   */
  lemma {:induction false} CutPullEndsPaging(c: Collection, ch: string, sent: seq<Message>, last: int, k: nat, n: nat)
    requires InIdOrder(sent, ch) && Stores(c, ch, sent) && Cut(sent, last, k) && 1 <= n <= MAX_PULL_LIMIT
    requires |sent| - k > n
    ensures var got := CacheRead(CacheOf(sent), last, n);
            && |got| == n && got[0].id > sent[k].id > last
            && CacheRead(CacheOf(sent), got[n - 1].id, n) == []
            && QueryMessages(c, ch, got[n - 1].id, n) == []
  {
    CacheGivesNewest(sent, ch, last, k, n);
    var end := sent[|sent| - 1].id;
    assert Cut(sent, end, |sent|);
    CacheGivesNewest(sent, ch, end, |sent|, n);
    StoreGivesOldest(c, ch, sent, end, |sent|, n);
  }

  // ---------------------------------------------------------------------
  // Paging through the store
  // ---------------------------------------------------------------------

  /** The pages a client gets that always goes on from the last id of the page before. */
  function Pages(c: Collection, ch: string, last: int, n: nat): seq<seq<Doc>>
    requires n >= 1 && KeysMatch(c)
    decreases |NewerIds(c, ch, last)|
  {
    var page := QueryMessages(c, ch, last, n);
    if page == [] then []
    else
      PageAdvances(c, ch, last, n);
      [page] + Pages(c, ch, page[|page| - 1].id, n)
  }

  function Concat(pages: seq<seq<Doc>>): seq<Doc> {
    if pages == [] then [] else pages[0] + Concat(pages[1..])
  }

  /** The documents of a list of ids split where the list is split. */
  lemma DocsSplit(c: Collection, ch: string, ids: seq<int>, p: nat)
    requires p <= |ids| && forall i :: 0 <= i < |ids| ==> Key(ch, ids[i]) in c
    ensures DocsFor(c, ch, ids) == DocsFor(c, ch, ids[..p]) + DocsFor(c, ch, ids[p..])
    ensures DocsFor(c, ch, ids)[..p] == DocsFor(c, ch, ids[..p])
  {}

  /** The newer ids, listed. */
  function ListedIds(c: Collection, ch: string, last: int): (ids: seq<int>)
    ensures |ids| == |NewerIds(c, ch, last)| && forall i :: 0 <= i < |ids| ==> Key(ch, ids[i]) in c && ids[i] > last
  {
    SortedSound(NewerIds(c, ch, last));
    Sorted(NewerIds(c, ch, last))
  }

  /** Going on after the first `p` newer messages leaves exactly the rest. */
  lemma GoOn(c: Collection, ch: string, last: int, p: nat)
    requires 1 <= p <= |ListedIds(c, ch, last)|
    ensures var ids := ListedIds(c, ch, last);
            && AllNewer(c, ch, last) == DocsFor(c, ch, ids[..p]) + AllNewer(c, ch, ids[p - 1])
            && AllNewer(c, ch, last)[..p] == DocsFor(c, ch, ids[..p])
            && |NewerIds(c, ch, ids[p - 1])| == |NewerIds(c, ch, last)| - p
  {
    var ids := ListedIds(c, ch, last);
    NextIds(c, ch, last, p);
    assert ListedIds(c, ch, ids[p - 1]) == ids[p..];
    DocsSplit(c, ch, ids, p);
  }

  /** A page is the front of what is left, and going on from its last id leaves exactly the rest. */
  lemma PageAdvances(c: Collection, ch: string, last: int, n: nat)
    requires n >= 1 && KeysMatch(c) && AllNewer(c, ch, last) != []
    ensures var page := QueryMessages(c, ch, last, n);
            && page != []
            && page[|page| - 1].id > last
            && AllNewer(c, ch, last) == page + AllNewer(c, ch, page[|page| - 1].id)
            && |NewerIds(c, ch, page[|page| - 1].id)| < |NewerIds(c, ch, last)|
  {
    var ids := ListedIds(c, ch, last);
    var p := if |ids| <= n then |ids| else n;
    GoOn(c, ch, last, p);
    var all := AllNewer(c, ch, last);
    assert all[..|all|] == all;
    assert QueryMessages(c, ch, last, n) == DocsFor(c, ch, ids[..p]);
    assert KeyOf(c[Key(ch, ids[p - 1])]) == Key(ch, ids[p - 1]);
  }

  lemma NextIds(c: Collection, ch: string, last: int, p: nat)
    requires 1 <= p <= |Sorted(NewerIds(c, ch, last))|
    ensures var ids := Sorted(NewerIds(c, ch, last));
            Sorted(NewerIds(c, ch, ids[p - 1])) == ids[p..]
  {
    var newer := NewerIds(c, ch, last);
    var ids := Sorted(newer);
    SortedSound(newer);
    var rest := ids[p..];
    forall x | x in NewerIds(c, ch, ids[p - 1]) ensures Contains(rest, x) {
      SortedComplete(newer, x);
      var i :| 0 <= i < |ids| && ids[i] == x;
      assert rest[i - p] == x;
    }
    forall i | 0 <= i < |rest| ensures rest[i] in NewerIds(c, ch, ids[p - 1]) {
      assert ids[p + i] in newer;
    }
    SortedUnique(rest, NewerIds(c, ch, ids[p - 1]));
  }

  /** The first page and what going on from it gives. */
  lemma PagesStep(c: Collection, ch: string, last: int, n: nat) returns (page: seq<Doc>, next: int)
    requires n >= 1 && KeysMatch(c) && AllNewer(c, ch, last) != []
    ensures Pages(c, ch, last, n) == [page] + Pages(c, ch, next, n)
    ensures AllNewer(c, ch, last) == page + AllNewer(c, ch, next)
    ensures |page| == if |AllNewer(c, ch, last)| <= n then |AllNewer(c, ch, last)| else n
    ensures |NewerIds(c, ch, next)| < |NewerIds(c, ch, last)|
  {
    PageAdvances(c, ch, last, n);
    page := QueryMessages(c, ch, last, n);
    next := page[|page| - 1].id;
    PagesUnfold(c, ch, last, n);
  }

  lemma PagesUnfold(c: Collection, ch: string, last: int, n: nat)
    requires n >= 1 && KeysMatch(c) && QueryMessages(c, ch, last, n) != []
    ensures var page := QueryMessages(c, ch, last, n);
            Pages(c, ch, last, n) == [page] + Pages(c, ch, page[|page| - 1].id, n)
  {}

  lemma {:induction false} ConcatFirst(page: seq<Doc>, pages: seq<seq<Doc>>)
    ensures Concat([page] + pages) == page + Concat(pages)
  {
    assert ([page] + pages)[1..] == pages;
  }

  /** How many pages of `n` hold `m` messages. */
  ghost function Needed(m: nat, n: nat): nat
    requires n >= 1
  {
    if m == 0 then 0 else if m <= n then 1 else 1 + Needed(m - n, n)
  }

  lemma {:induction false} PagingPages(c: Collection, ch: string, last: int, n: nat)
    requires n >= 1 && KeysMatch(c)
    ensures Concat(Pages(c, ch, last, n)) == AllNewer(c, ch, last)
    ensures |Pages(c, ch, last, n)| == Needed(|AllNewer(c, ch, last)|, n)
    decreases |NewerIds(c, ch, last)|
  {
    if AllNewer(c, ch, last) != [] {
      var page, next := PagesStep(c, ch, last, n);
      PagingPages(c, ch, next, n);
      ConcatFirst(page, Pages(c, ch, next, n));
      NeededNext(|AllNewer(c, ch, last)|, n);
    }
  }

  lemma NeededNext(m: nat, n: nat)
    requires n >= 1 && m >= 1
    ensures Needed(m, n) == 1 + Needed(m - (if m <= n then m else n), n)
  {}

  lemma {:induction false} NeededIsQuotient(m: nat, n: nat)
    requires n >= 1
    ensures Needed(m, n) == (m + n - 1) / n
    decreases m
  {
    if m == 0 {
      Quotient(n - 1, n, 0, n - 1);
    } else if m <= n {
      Quotient(m + n - 1, n, 1, m - 1);
    } else {
      NeededIsQuotient(m - n, n);
      Quotient(m + n - 1, n, (m - 1) / n + 1, (m - 1) % n);
    }
  }

  /**
   Paging through a fixed store returns every later message exactly once, in
   ascending order, and ends after the least number of pages.
   */
  lemma {:induction false} PagingComplete(c: Collection, ch: string, last: int, n: nat)
    requires n >= 1 && KeysMatch(c)
    ensures Concat(Pages(c, ch, last, n)) == AllNewer(c, ch, last)
    ensures |Pages(c, ch, last, n)| == (|AllNewer(c, ch, last)| + n - 1) / n
  {
    PagingPages(c, ch, last, n);
    NeededIsQuotient(|AllNewer(c, ch, last)|, n);
  }

  lemma Quotient(x: int, n: int, q: int, r: int)
    requires n > 0 && 0 <= r < n && x == n * q + r
    ensures x / n == q
  {
    var d := q - x / n;
    assert n * d == x % n - r;
    assert d >= 1 ==> n * d >= n;
    assert d <= -1 ==> n * d <= -n;
  }
}
