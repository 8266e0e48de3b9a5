/**
 The dialog window: a deal's messages are sorted in place, AI and system messages are dropped, and the
 last ones are kept; the reply assistant answers the last client message among them.
 */
module Dialog {
  import opened Wrappers

  datatype Sender = Client | Manager | Assistant | System

  datatype Message = Message(id: int, time: int, sender: Sender, body: string)

  /** A message as the RPC sends it. */
  datatype Item = Item(id: int, fromClient: bool, body: string)

  predicate Before(a: Message, b: Message) {
    a.time < b.time || (a.time == b.time && a.id < b.id)
  }

  predicate InDialog(m: Message) {
    m.sender == Client || m.sender == Manager
  }

  // ---------- sorting ----------

  function Insert(s: seq<Message>, x: Message): seq<Message> {
    if s == [] || !Before(x, s[|s| - 1]) then s + [x]
    else Insert(s[..|s| - 1], x) + [s[|s| - 1]]
  }

  function Sort(s: seq<Message>): seq<Message> {
    if s == [] then [] else Insert(Sort(s[..|s| - 1]), s[|s| - 1])
  }

  predicate Ordered(s: seq<Message>) {
    forall i, j :: 0 <= i < j < |s| ==> !Before(s[j], s[i])
  }

  /** Message ids are primary keys. */
  predicate DistinctIds(s: seq<Message>) {
    forall i, j :: 0 <= i < j < |s| ==> s[i].id != s[j].id
  }

  lemma {:induction false} InsertMembers(s: seq<Message>, x: Message)
    ensures forall k :: 0 <= k < |Insert(s, x)| ==> Insert(s, x)[k] == x || Insert(s, x)[k] in s
  {
    if s != [] && Before(x, s[|s| - 1]) {
      InsertMembers(s[..|s| - 1], x);
    }
  }

  lemma {:induction false} InsertOrders(s: seq<Message>, x: Message)
    requires Ordered(s)
    ensures Ordered(Insert(s, x))
  {
    if s != [] && Before(x, s[|s| - 1]) {
      InsertOrders(s[..|s| - 1], x);
      InsertMembers(s[..|s| - 1], x);
    }
  }

  lemma {:induction false} InsertPermutes(s: seq<Message>, x: Message)
    ensures multiset(Insert(s, x)) == multiset(s) + multiset{x}
  {
    if s != [] && Before(x, s[|s| - 1]) {
      InsertPermutes(s[..|s| - 1], x);
      assert s == s[..|s| - 1] + [s[|s| - 1]];
    }
  }

  /** Sorting permutes and orders. */
  lemma {:induction false} SortSorts(s: seq<Message>)
    ensures Ordered(Sort(s)) && multiset(Sort(s)) == multiset(s) && |Sort(s)| == |s|
  {
    if s != [] {
      SortSorts(s[..|s| - 1]);
      InsertOrders(Sort(s[..|s| - 1]), s[|s| - 1]);
      InsertPermutes(Sort(s[..|s| - 1]), s[|s| - 1]);
      assert s == s[..|s| - 1] + [s[|s| - 1]];
      assert |multiset(Sort(s))| == |multiset(s)|;
    }
  }

  lemma SortNext(s: seq<Message>, i: nat)
    requires i < |s|
    ensures Sort(s[..i + 1]) == Insert(Sort(s[..i]), s[i])
  {
    assert s[..i + 1][..i] == s[..i];
  }

  method SortInPlace(a: array<Message>)
    modifies a
    ensures a[..] == Sort(old(a[..]))
  {
    ghost var was := a[..];
    for i := 0 to a.Length
      invariant a[..i] == Sort(was[..i]) && a[i..] == was[i..]
    {
      SortNext(was, i);
      assert a[i] == a[i..][0] && a[i + 1..] == a[i..][1..];
      assert was[i] == was[i..][0] && was[i + 1..] == was[i..][1..];
      InsertAt(a, i);
    }
    assert a[..a.Length] == a[..] && was[..a.Length] == was;
  }

  /** Insert puts x behind the last element that it is not before. */
  lemma {:induction false} InsertIs(p: seq<Message>, x: Message, j: nat)
    requires j <= |p| && (j > 0 ==> !Before(x, p[j - 1])) && forall k :: j <= k < |p| ==> Before(x, p[k])
    ensures Insert(p, x) == p[..j] + [x] + p[j..]
  {
    if j == |p| {
      assert p[..j] == p;
    } else {
      var front := p[..|p| - 1];
      InsertIs(front, x, j);
      assert front[..j] == p[..j] && p[j..] == front[j..] + [p[|p| - 1]];
    }
  }

  /** Moves a[i] down into the sorted part before it. */
  method InsertAt(a: array<Message>, i: nat)
    requires i < a.Length
    modifies a
    ensures a[..i + 1] == Insert(old(a[..i]), old(a[i])) && a[i + 1..] == old(a[i + 1..])
  {
    ghost var p := a[..i];
    var x := a[i];
    var j := i;
    while j > 0 && Before(x, a[j - 1])
      invariant j <= i && a[i + 1..] == old(a[i + 1..])
      invariant forall k :: 0 <= k < j ==> a[k] == p[k]
      invariant forall k :: j < k <= i ==> a[k] == p[k - 1]
      invariant forall k :: j <= k < i ==> Before(x, p[k])
    {
      a[j] := a[j - 1];
      j := j - 1;
    }
    InsertIs(p, x, j);
    a[j] := x;
    assert a[..i + 1] == p[..j] + [x] + p[j..];
  }

  // ---------- filter and tail ----------

  function DialogOf(s: seq<Message>): seq<Message> {
    if s == [] then []
    else if InDialog(s[|s| - 1]) then DialogOf(s[..|s| - 1]) + [s[|s| - 1]]
    else DialogOf(s[..|s| - 1])
  }

  function Tail<T>(s: seq<T>, limit: nat): seq<T> {
    if |s| > limit then s[|s| - limit..] else s
  }

  function Window(messages: seq<Message>, limit: nat): seq<Message> {
    Tail(DialogOf(Sort(messages)), limit)
  }

  function ItemOf(m: Message): Item {
    Item(m.id, m.sender == Client, m.body)
  }

  function ItemsOf(s: seq<Message>): seq<Item> {
    seq(|s|, k requires 0 <= k < |s| => ItemOf(s[k]))
  }

  lemma ItemsSnoc(s: seq<Message>, m: Message)
    ensures ItemsOf(s + [m]) == ItemsOf(s) + [ItemOf(m)]
  {
  }

  lemma TailItems(s: seq<Message>, limit: nat)
    ensures Tail(ItemsOf(s), limit) == ItemsOf(Tail(s, limit))
  {
  }

  datatype ReadError = DealNotFound | ReadFailed

  /** chat is the deal's chat session, if it has one; messages is what its messages are read into. */
  method GetDealMessages(chat: Result<Option<int>, ReadError>, messages: Result<array<Message>, ReadError>, limit: nat)
    returns (r: Result<seq<Item>, ReadError>)
    modifies if messages.Ok? then {messages.value} else {}
    ensures r.Err? <==> chat.Err? || (chat.value.Some? && messages.Err?)
    ensures r.Err? ==> r.error == if chat.Err? then chat.error else messages.error
    ensures r.Ok? && chat.value.None? ==> r.value == []
    ensures r.Ok? && chat.value.Some? ==>
              var w := Window(old(messages.value[..]), limit);
              && |r.value| == |w|
              && forall k :: 0 <= k < |w| ==> r.value[k] == Item(w[k].id, w[k].sender == Client, w[k].body)
    ensures r.Ok? && chat.value.Some? ==> r.value == ItemsOf(Window(old(messages.value[..]), limit))
  {
    if chat.Err? {
      return Err(chat.error);
    }
    if chat.value.None? {
      return Ok([]);
    }
    if messages.Err? {
      return Err(messages.error);
    }
    var result := NewestInDialog(messages.value, limit);
    return Ok(result);
  }

  /** Sorts, filters, and keeps the last items. */
  method NewestInDialog(a: array<Message>, limit: nat) returns (result: seq<Item>)
    modifies a
    ensures result == ItemsOf(Window(old(a[..]), limit))
  {
    SortInPlace(a);
    result := DialogItems(a);
    TailItems(DialogOf(a[..]), limit);
    if |result| > limit {
      result := result[|result| - limit..];
    }
  }

  /** The loop that drops AI and system messages. */
  method DialogItems(a: array<Message>) returns (result: seq<Item>)
    ensures result == ItemsOf(DialogOf(a[..]))
  {
    result := [];
    for n := 0 to a.Length
      invariant result == ItemsOf(DialogOf(a[..n]))
    {
      assert a[..n + 1][..n] == a[..n];
      ItemsSnoc(DialogOf(a[..n]), a[n]);
      if a[n].sender == Client {
        result := result + [Item(a[n].id, true, a[n].body)];
      } else if a[n].sender == Manager {
        result := result + [Item(a[n].id, false, a[n].body)];
      }
    }
    assert a[..a.Length] == a[..];
  }

  // ---------- what the window is ----------

  function One(b: bool): nat {
    if b then 1 else 0
  }

  /** How many client and manager messages are newer than m. */
  function Newer(s: seq<Message>, m: Message): nat {
    if s == [] then 0
    else Newer(s[..|s| - 1], m) + One(InDialog(s[|s| - 1]) && Before(m, s[|s| - 1]))
  }

  lemma NewerSnoc(s: seq<Message>, x: Message, m: Message)
    ensures Newer(s + [x], m) == Newer(s, m) + One(InDialog(x) && Before(m, x))
  {
    assert (s + [x])[..|s|] == s;
  }

  lemma {:induction false} NewerOfInsert(s: seq<Message>, x: Message, m: Message)
    ensures Newer(Insert(s, x), m) == Newer(s, m) + One(InDialog(x) && Before(m, x))
  {
    if s == [] || !Before(x, s[|s| - 1]) {
      NewerSnoc(s, x, m);
    } else {
      NewerOfInsert(s[..|s| - 1], x, m);
      NewerSnoc(Insert(s[..|s| - 1], x), s[|s| - 1], m);
    }
  }

  lemma {:induction false} NewerOfSort(s: seq<Message>, m: Message)
    ensures Newer(DialogOf(Sort(s)), m) == Newer(s, m)
  {
    NewerOfDialog(Sort(s), m);
    NewerSorted(s, m);
  }

  lemma {:induction false} NewerSorted(s: seq<Message>, m: Message)
    ensures Newer(Sort(s), m) == Newer(s, m)
  {
    if s != [] {
      NewerSorted(s[..|s| - 1], m);
      NewerOfInsert(Sort(s[..|s| - 1]), s[|s| - 1], m);
    }
  }

  lemma {:induction false} NewerOfDialog(s: seq<Message>, m: Message)
    ensures Newer(DialogOf(s), m) == Newer(s, m)
  {
    if s != [] {
      NewerOfDialog(s[..|s| - 1], m);
      NewerSnoc(DialogOf(s[..|s| - 1]), s[|s| - 1], m);
    }
  }

  predicate Strict(s: seq<Message>) {
    forall i, j :: 0 <= i < j < |s| ==> Before(s[i], s[j])
  }

  lemma {:induction false} SortKeepsIds(s: seq<Message>)
    requires DistinctIds(s)
    ensures DistinctIds(Sort(s))
  {
    if s != [] {
      var front, x := s[..|s| - 1], s[|s| - 1];
      SortKeepsIds(front);
      SortSorts(front);
      forall k | 0 <= k < |Sort(front)|
        ensures Sort(front)[k].id != x.id
      {
        assert Sort(front)[k] in multiset(front);
      }
      InsertKeepsIds(Sort(front), x);
    }
  }

  lemma {:induction false} InsertKeepsIds(s: seq<Message>, x: Message)
    requires DistinctIds(s) && forall k :: 0 <= k < |s| ==> s[k].id != x.id
    ensures DistinctIds(Insert(s, x))
  {
    if s != [] && Before(x, s[|s| - 1]) {
      InsertKeepsIds(s[..|s| - 1], x);
      InsertMembers(s[..|s| - 1], x);
    }
  }

  lemma {:induction false} DialogIsSubset(s: seq<Message>, m: Message)
    ensures m in DialogOf(s) <==> m in s && InDialog(m)
  {
    if s != [] {
      DialogIsSubset(s[..|s| - 1], m);
      assert s == s[..|s| - 1] + [s[|s| - 1]];
    }
  }

  lemma {:induction false} DialogKeepsStrict(s: seq<Message>)
    requires Strict(s)
    ensures Strict(DialogOf(s))
  {
    if s != [] {
      var front := s[..|s| - 1];
      DialogKeepsStrict(front);
      forall k | 0 <= k < |DialogOf(front)|
        ensures Before(DialogOf(front)[k], s[|s| - 1])
      {
        DialogIsSubset(front, DialogOf(front)[k]);
      }
    }
  }

  lemma {:induction false} NothingNewer(s: seq<Message>, m: Message)
    requires forall k :: 0 <= k < |s| ==> !Before(m, s[k])
    ensures Newer(s, m) == 0
  {
    if s != [] {
      NothingNewer(s[..|s| - 1], m);
    }
  }

  /** In a strictly ordered dialog, the messages after the k-th are the newer ones. */
  lemma {:induction false} NewerByPosition(d: seq<Message>, k: nat)
    requires Strict(d) && k < |d| && forall i :: 0 <= i < |d| ==> InDialog(d[i])
    ensures Newer(d, d[k]) == |d| - 1 - k
  {
    if k == |d| - 1 {
      NothingNewer(d[..k], d[k]);
    } else {
      NewerByPosition(d[..|d| - 1], k);
    }
  }

  lemma DialogIsStrict(messages: seq<Message>)
    requires DistinctIds(messages)
    ensures var d := DialogOf(Sort(messages));
            Strict(d) && (forall i :: 0 <= i < |d| ==> InDialog(d[i])) && (forall m :: m in d <==> m in messages && InDialog(m))
  {
    SortSorts(messages);
    SortKeepsIds(messages);
    DialogKeepsStrict(Sort(messages));
    forall m
      ensures m in DialogOf(Sort(messages)) <==> m in messages && InDialog(m)
    {
      DialogIsSubset(Sort(messages), m);
      assert m in messages <==> m in multiset(messages);
      assert m in Sort(messages) <==> m in multiset(Sort(messages));
    }
  }

  lemma {:induction false} DropKeeps(d: seq<Message>, cut: nat, k: nat)
    requires Strict(d) && cut <= |d| && k < |d|
    ensures d[k] in d[cut..] <==> k >= cut
  {
    if k >= cut {
      assert d[cut..][k - cut] == d[k];
    }
  }

  lemma TailIsNewest(d: seq<Message>, limit: nat, k: nat)
    requires Strict(d) && k < |d| && forall i :: 0 <= i < |d| ==> InDialog(d[i])
    ensures d[k] in Tail(d, limit) <==> Newer(d, d[k]) < limit
  {
    NewerByPosition(d, k);
    DropKeeps(d, if |d| > limit then |d| - limit else 0, k);
  }

  lemma InWindowIff(messages: seq<Message>, limit: nat, m: Message)
    requires DistinctIds(messages)
    ensures m in Window(messages, limit) <==> m in messages && InDialog(m) && Newer(messages, m) < limit
  {
    DialogIsStrict(messages);
    var d := DialogOf(Sort(messages));
    NewerOfSort(messages, m);
    if m in d {
      var k :| 0 <= k < |d| && d[k] == m;
      TailIsNewest(d, limit, k);
    }
  }

  lemma WindowIsStrict(messages: seq<Message>, limit: nat)
    requires DistinctIds(messages)
    ensures Strict(Window(messages, limit))
  {
    DialogIsStrict(messages);
  }

  /** A message is in the window exactly when it is a client's or a manager's and fewer than limit such messages are
      newer: AI and system messages never take a slot. The window is in strict (time, id) order. */
  lemma WindowIsNewest(messages: seq<Message>, limit: nat)
    requires DistinctIds(messages)
    ensures forall m :: m in Window(messages, limit) <==>
              m in messages && (m.sender == Client || m.sender == Manager) && Newer(messages, m) < limit
    ensures Strict(Window(messages, limit))
    ensures var w := Window(messages, limit);
            forall i, j :: 0 <= i < j < |w| ==> w[i].time < w[j].time || (w[i].time == w[j].time && w[i].id < w[j].id)
    ensures var n := |DialogOf(Sort(messages))|; |Window(messages, limit)| == if n < limit then n else limit
  {
    WindowIsStrict(messages, limit);
    forall m
      ensures m in Window(messages, limit) <==>
              m in messages && (m.sender == Client || m.sender == Manager) && Newer(messages, m) < limit
    {
      InWindowIff(messages, limit, m);
    }
  }

  // ---------- the message to answer ----------

  /** The first client message of the reversed history. */
  function LastClient(items: seq<Item>): Option<Item> {
    if items == [] then None
    else if items[|items| - 1].fromClient then Some(items[|items| - 1])
    else LastClient(items[..|items| - 1])
  }

  datatype Source = SelectedText | LastClientMessage

  datatype DialogError = NO_CLIENT_MESSAGES | BACKEND_RESPONSE_ERROR

  /** The text that a reply is prepared for; history is None when the backend's answer is invalid. */
  method ChooseTarget(selected: Option<string>, history: Option<seq<Item>>) returns (r: Result<(Source, string), DialogError>)
    ensures selected.Some? ==> r == Ok((SelectedText, selected.value))
    ensures selected.None? && history.None? ==> r == Err(BACKEND_RESPONSE_ERROR)
    ensures selected.None? && history.Some? ==>
              match LastClient(history.value)
              case Some(item) => r == Ok((LastClientMessage, item.body))
              case None => r == Err(NO_CLIENT_MESSAGES)
  {
    if selected.Some? {
      return Ok((SelectedText, selected.value));
    }
    if history.None? {
      return Err(BACKEND_RESPONSE_ERROR);
    }
    var items := history.value;
    var n := |items|;
    assert items[..n] == items;
    while n > 0
      invariant n <= |items| && LastClient(items) == LastClient(items[..n])
    {
      if items[n - 1].fromClient {
        return Ok((LastClientMessage, items[n - 1].body));
      }
      assert items[..n][..n - 1] == items[..n - 1];
      n := n - 1;
    }
    return Err(NO_CLIENT_MESSAGES);
  }

  const REPLY_WINDOW: nat := 30

  lemma {:induction false} LastClientOf(s: seq<Message>) returns (k: nat)
    ensures LastClient(ItemsOf(s)).Some? ==>
              && k < |s| && s[k].sender == Client && LastClient(ItemsOf(s)) == Some(ItemOf(s[k]))
              && forall j :: k < j < |s| ==> s[j].sender != Client
    ensures LastClient(ItemsOf(s)).None? ==> forall j :: 0 <= j < |s| ==> s[j].sender != Client
  {
    k := 0;
    if s != [] {
      var n := |s| - 1;
      if s[n].sender == Client {
        k := n;
      } else {
        assert ItemsOf(s)[..n] == ItemsOf(s[..n]);
        k := LastClientOf(s[..n]);
      }
    }
  }

  lemma {:induction false} NewerIsMonotone(s: seq<Message>, m: Message, x: Message)
    ensures Before(m, x) ==> Newer(s, x) <= Newer(s, m)
  {
    if s != [] {
      NewerIsMonotone(s[..|s| - 1], m, x);
    }
  }

  lemma NewestClient(w: seq<Message>, k: nat, x: Message)
    requires Strict(w) && k < |w| && x in w && x.sender == Client
    requires forall j :: k < j < |w| ==> w[j].sender != Client
    ensures !Before(w[k], x)
  {
    var j :| 0 <= j < |w| && w[j] == x;
    assert j <= k;
  }

  /** The message answered is the newest client message of the whole history; none is found exactly when every
      client message has at least thirty newer messages of the dialog. */
  lemma ReplyTarget(messages: seq<Message>) returns (m: Message)
    requires DistinctIds(messages)
    ensures var target := LastClient(ItemsOf(Window(messages, REPLY_WINDOW)));
            && (target.Some? ==>
                  && m in messages && m.sender == Client && target == Some(Item(m.id, true, m.body))
                  && forall x :: x in messages && x.sender == Client ==>
                       x.time < m.time || (x.time == m.time && x.id <= m.id))
            && (target.None? <==> forall x :: x in messages && x.sender == Client ==> Newer(messages, x) >= 30)
  {
    var w := Window(messages, REPLY_WINDOW);
    WindowIsNewest(messages, REPLY_WINDOW);
    m := TargetIn(messages, w);
  }

  lemma TargetIn(messages: seq<Message>, w: seq<Message>) returns (m: Message)
    requires Strict(w)
    requires forall m :: m in w <==> m in messages && InDialog(m) && Newer(messages, m) < REPLY_WINDOW
    ensures var target := LastClient(ItemsOf(w));
            && (target.Some? ==>
                  && m in messages && m.sender == Client && target == Some(ItemOf(m))
                  && forall x :: x in messages && x.sender == Client ==> !Before(m, x))
            && (target.None? <==> forall x :: x in messages && x.sender == Client ==> Newer(messages, x) >= REPLY_WINDOW)
  {
    var k := LastClientOf(w);
    m := Message(0, 0, System, "");
    if LastClient(ItemsOf(w)).Some? {
      m := w[k];
      assert m in w;
      forall x | x in messages && x.sender == Client
        ensures !Before(m, x)
      {
        NewerIsMonotone(messages, m, x);
        if x in w {
          NewestClient(w, k, x);
        }
      }
    }
  }
}
