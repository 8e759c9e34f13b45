/** Sending albums: files are prepared, uploaded and cancelled in any order, and the album is sent once. */
module AlbumsProtocol {
  type Group = nat
  type MsgId = nat  // 0 is no message
  type Task = nat

  // An item has no message while its file is being prepared, and no media while the file is being uploaded.
  datatype Item = Item(task: Task, msg: MsgId, media: bool)

  datatype Album = Album(items: seq<Item>, sent: bool)

  datatype Message = Message(group: Group, sending: bool)

  datatype Way = Ephemeral | Paid | Single | Multi

  datatype Sent = Sent(group: Group, way: Way, msgs: seq<MsgId>)

  // albums: _sendingAlbums. messages: the local messages that exist. preparing, uploads, waiting: the files being
  // prepared, the messages being uploaded, and the albums whose response is awaited. broken: the albums of which the
  // preparation of a file failed. log: everything that was sent.
  datatype State = State(
    albums: map<Group, Album>, messages: map<MsgId, Message>, nextMsg: MsgId, used: set<Group>,
    preparing: set<(Group, Task)>, uploads: set<MsgId>, waiting: map<Group, Way>, broken: set<Group>, log: seq<Sent>)

  ghost predicate Init(s: State) { s == State(map[], map[], 1, {}, {}, {}, map[], {}, []) }

  // Items

  ghost predicate Distinct(items: seq<Item>) {
    && (forall i, j :: 0 <= i < j < |items| ==> items[i].task != items[j].task)
    && (forall i, j :: 0 <= i < j < |items| ==> items[i].msg == 0 || items[i].msg != items[j].msg)
  }

  predicate HasMsg(items: seq<Item>, m: MsgId) { exists i :: 0 <= i < |items| && items[i].msg == m }

  // ranges::find by message id, and by task id.
  function FindMsg(items: seq<Item>, m: MsgId): (i: nat)
    ensures i <= |items| && (i < |items| ==> items[i].msg == m) && forall j :: 0 <= j < i ==> items[j].msg != m
  {
    if items == [] || items[0].msg == m then 0 else 1 + FindMsg(items[1..], m)
  }

  function FindTask(items: seq<Item>, t: Task): (i: nat)
    ensures i <= |items| && (i < |items| ==> items[i].task == t) && forall j :: 0 <= j < i ==> items[j].task != t
  {
    if items == [] || items[0].task == t then 0 else 1 + FindTask(items[1..], t)
  }

  function Without(items: seq<Item>, i: nat): seq<Item>
    requires i < |items|
  {
    items[..i] + items[i + 1..]
  }

  lemma WithoutOne(items: seq<Item>, i: nat)
    requires Distinct(items) && i < |items|
    ensures Distinct(Without(items, i))
    ensures forall x :: x in Without(items, i) <==> x in items && x != items[i]
  {
    var r := Without(items, i);
    forall x | x in items && x != items[i] ensures x in r {
      var j :| 0 <= j < |items| && items[j] == x;
      assert x == r[if j < i then j else j - 1];
    }
  }

  lemma ReplacedOne(items: seq<Item>, i: nat, y: Item)
    requires Distinct(items) && i < |items| && y.task == items[i].task
    requires y.msg == items[i].msg || forall x :: x in items ==> x.msg != y.msg
    ensures Distinct(items[i := y])
    ensures forall x :: x in items[i := y] <==> x == y || (x in items && x != items[i])
  {
    var r := items[i := y];
    forall x | x in items && x != items[i] ensures x in r {
      var j :| 0 <= j < |items| && items[j] == x;
      assert x == r[j];
    }
    assert r[i] == y;
  }

  function Msgs(items: seq<Item>): seq<MsgId> { seq(|items|, i requires 0 <= i < |items| => items[i].msg) }

  // sendAlbumIfReady

  predicate Complete(items: seq<Item>) { forall x :: x in items ==> x.media }

  predicate AnyMessage(s: State, items: seq<Item>) { exists x :: x in items && x.msg in s.messages }

  function WayFor(items: seq<Item>, ephemeral: bool, paid: bool): Way {
    if ephemeral then Ephemeral else if paid then Paid else if |items| < 2 then Single else Multi
  }

  function Existing(messages: map<MsgId, Message>, items: seq<Item>): seq<MsgId> {
    if items == [] then []
    else
      var m := items[|items| - 1].msg;
      Existing(messages, items[..|items| - 1]) + if m in messages then [m] else []
  }

  function SendOut(s: State, g: Group, ephemeral: bool, paid: bool): State
    requires g in s.albums
  {
    var items := s.albums[g].items;
    var way := WayFor(items, ephemeral, paid);
    var sent := Sent(g, way, if way.Ephemeral? then Existing(s.messages, items) else Msgs(items));
    if way.Ephemeral? || way.Single? then s.(albums := s.albums - {g}, log := s.log + [sent])
    else s.(albums := s.albums[g := Album(items, true)], waiting := s.waiting[g := way], log := s.log + [sent])
  }

  function SendIfReady(s: State, g: Group, ephemeral: bool, paid: bool): State
    requires g in s.albums
  {
    var a := s.albums[g];
    if a.sent then s
    else if a.items == [] then s.(albums := s.albums - {g})
    else if !Complete(a.items) then s
    else if !AnyMessage(s, a.items) then s.(albums := s.albums - {g})
    else SendOut(s, g, ephemeral, paid)
  }

  // Steps

  function Unprepared(tasks: seq<Task>): seq<Item> {
    seq(|tasks|, i requires 0 <= i < |tasks| => Item(tasks[i], 0, false))
  }

  ghost predicate Added(s: State, s': State, g: Group, tasks: seq<Task>) {
    && g !in s.used && (forall i, j :: 0 <= i < j < |tasks| ==> tasks[i] != tasks[j]) && tasks != []
    && s' == s.(albums := s.albums[g := Album(Unprepared(tasks), false)],
                used := s.used + {g}, preparing := s.preparing + (set t | t in tasks :: (g, t)))
  }

  // A file is ready: its message is made, and its upload starts.
  predicate TaskFound(s: State, g: Group, t: Task) {
    g in s.albums && FindTask(s.albums[g].items, t) < |s.albums[g].items|
  }

  function Prepared(s: State, g: Group, t: Task): State
    requires TaskFound(s, g, t)
  {
    var a := s.albums[g];
    var i := FindTask(a.items, t);
    s.(albums := s.albums[g := a.(items := a.items[i := a.items[i].(msg := s.nextMsg)])],
       messages := s.messages[s.nextMsg := Message(g, true)], nextMsg := s.nextMsg + 1,
       preparing := s.preparing - {(g, t)}, uploads := s.uploads + {s.nextMsg})
  }

  // removeTask; sendAlbumIfReady is not called.
  function TaskFailed(s: State, g: Group, t: Task): State
    requires TaskFound(s, g, t)
  {
    var a := s.albums[g];
    s.(albums := s.albums[g := a.(items := Without(a.items, FindTask(a.items, t)))],
       preparing := s.preparing - {(g, t)}, broken := s.broken + {g})
  }

  // The checks in sendAlbumWithUploaded, FindAlbumItem and fillMedia.
  predicate MayFill(s: State, m: MsgId) {
    && m in s.messages && s.messages[m].group in s.albums
    && var items := s.albums[s.messages[m].group].items;
       FindMsg(items, m) < |items| && !items[FindMsg(items, m)].media
  }

  function Filled(s: State, m: MsgId): State
    requires MayFill(s, m)
  {
    var g := s.messages[m].group;
    var a := s.albums[g];
    var i := FindMsg(a.items, m);
    s.(albums := s.albums[g := a.(items := a.items[i := a.items[i].(media := true)])])
  }

  function Uploaded(s: State, m: MsgId, ephemeral: bool, paid: bool): State
    requires m in s.messages ==> MayFill(s, m)
  {
    var s1 := s.(uploads := s.uploads - {m});
    if m !in s.messages then s1 else SendIfReady(Filled(s1, m), s.messages[m].group, ephemeral, paid)
  }

  function UploadFailed(s: State, m: MsgId): State { s.(uploads := s.uploads - {m}) }

  predicate MayRemove(s: State, m: MsgId) {
    && m in s.messages && s.messages[m].group in s.albums
    && FindMsg(s.albums[s.messages[m].group].items, m) < |s.albums[s.messages[m].group].items|
  }

  function ItemRemoved(s: State, m: MsgId): State
    requires MayRemove(s, m)
  {
    var g := s.messages[m].group;
    var a := s.albums[g];
    s.(albums := s.albums[g := a.(items := Without(a.items, FindMsg(a.items, m)))])
  }

  // destroyMessage: a message being sent is cancelled, if its album is still known.
  predicate Cancels(s: State, m: MsgId) { m in s.messages && s.messages[m].sending && s.messages[m].group in s.albums }

  function Destroyed(s: State, m: MsgId, ephemeral: bool, paid: bool): State
    requires Cancels(s, m) ==> MayRemove(s, m)
  {
    var s1 := if Cancels(s, m) then SendIfReady(ItemRemoved(s, m), s.messages[m].group, ephemeral, paid) else s;
    s1.(messages := s1.messages - {m})
  }

  ghost function Ended(messages: map<MsgId, Message>, items: seq<Item>): map<MsgId, Message> {
    map m | m in messages :: if HasMsg(items, m) then messages[m].(sending := false) else messages[m]
  }

  // The response to an album: the messages of a failed one are not being sent any more; those of a paid one are
  // destroyed, or only the first is marked when it failed.
  ghost predicate Responded(s: State, s': State, g: Group, ok: bool) {
    && g in s.waiting && g in s.albums
    && var items := s.albums[g].items;
       var m := s.(waiting := s.waiting - {g});
       if s.waiting[g].Paid? then
         if ok then
           s' == m.(albums := s.albums - {g}, messages := s'.messages) && RemovedOnly(s.messages, s'.messages, items)
         else
           exists first ::
             s' == m.(messages := Ended(s.messages, [first])) && (first in items || first.msg !in s.messages)
       else s' == m.(albums := s.albums - {g}, messages := if ok then s.messages else Ended(s.messages, items))
  }

  ghost predicate RemovedOnly(messages: map<MsgId, Message>, messages': map<MsgId, Message>, items: seq<Item>) {
    && (forall m :: m in messages' <==> m in messages && !HasMsg(items, m))
    && (forall m :: m in messages' ==> messages'[m] == messages[m])
  }

  ghost predicate Next(s: State, s': State) {
    || (exists g, tasks :: Added(s, s', g, tasks))
    || (exists g, t ::
          (g, t) in s.preparing && TaskFound(s, g, t) && (s' == Prepared(s, g, t) || s' == TaskFailed(s, g, t)))
    || (exists m :: Uploads(s, s', m))
    || (exists m :: Destroys(s, s', m))
    || (exists g, ok :: Responded(s, s', g, ok))
  }

  ghost predicate Uploads(s: State, s': State, m: MsgId) {
    && m in s.uploads
    && (s' == UploadFailed(s, m) || ((m in s.messages ==> MayFill(s, m)) && exists e, p :: s' == Uploaded(s, m, e, p)))
  }

  ghost predicate Destroys(s: State, s': State, m: MsgId) {
    (Cancels(s, m) ==> MayRemove(s, m)) && exists e, p :: s' == Destroyed(s, m, e, p)
  }

  ghost predicate IsRun(run: seq<State>) {
    run != [] && Init(run[0]) && forall i :: 0 <= i < |run| - 1 ==> Next(run[i], run[i + 1])
  }

  // The invariant

  ghost function Count(log: seq<Sent>, g: Group): nat {
    if log == [] then 0 else Count(log[..|log| - 1], g) + if log[|log| - 1].group == g then 1 else 0
  }

  // An item of album g: what its message and its file are up to.
  ghost predicate ItemOk(s: State, g: Group, sent: bool, x: Item) {
    && x.msg < s.nextMsg
    && (x.msg == 0 <==> (g, x.task) in s.preparing)
    && (x.media ==> x.msg != 0 && x.msg !in s.uploads)
    && (sent ==> x.media)
    && (x.msg in s.messages ==> s.messages[x.msg].group == g)
    && (!sent && x.msg != 0 ==> x.msg in s.messages && s.messages[x.msg].sending)
  }

  // complete: the album may be complete and unsent although no preparation failed; true inside a step only.
  ghost predicate AlbumOk(s: State, g: Group, a: Album, complete: bool) {
    && g in s.used && Distinct(a.items)
    && (forall x :: x in a.items ==> ItemOk(s, g, a.sent, x))
    && (!a.sent ==> Count(s.log, g) == 0 && g !in s.waiting)
    && (!complete && !a.sent && Complete(a.items) ==> g in s.broken)
  }

  ghost predicate Albums(s: State) { forall g :: g in s.albums ==> AlbumOk(s, g, s.albums[g], false) }

  ghost predicate InAlbum(s: State, m: MsgId, g: Group) { g in s.albums ==> HasMsg(s.albums[g].items, m) }

  // A message being sent is still in its album, unless the album is gone; a message being uploaded is in its
  // album, which was not sent, and has no media yet.
  ghost predicate Messages(s: State) {
    && (forall m :: m in s.messages ==> 0 < m < s.nextMsg && s.messages[m].group in s.used)
    && (forall m :: m in s.messages && s.messages[m].sending ==> InAlbum(s, m, s.messages[m].group))
    && (forall m :: m in s.uploads ==> 0 < m < s.nextMsg)
    && (forall m :: m in s.uploads && m in s.messages ==> Uploading(s, m, s.messages[m].group))
  }

  ghost predicate Uploading(s: State, m: MsgId, g: Group) {
    g in s.albums && !s.albums[g].sent && HasMsg(s.albums[g].items, m)
  }

  ghost predicate Tasks(s: State) { forall g, t :: (g, t) in s.preparing ==> HasTask(s, g, t) }

  ghost predicate HasTask(s: State, g: Group, t: Task) {
    g in s.albums && !s.albums[g].sent && exists x :: x in s.albums[g].items && x.task == t && x.msg == 0
  }

  ghost predicate Log(s: State) {
    && (forall g :: Count(s.log, g) <= 1 && (Count(s.log, g) == 1 ==> g in s.used))
    && (forall g :: g in s.waiting ==> g in s.albums && s.albums[g].sent)
  }

  ghost predicate Inv(s: State) { s.nextMsg > 0 && Albums(s) && Messages(s) && Tasks(s) && Log(s) }

  lemma CountMore(log: seq<Sent>, e: Sent, g: Group)
    ensures Count(log + [e], g) == Count(log, g) + if e.group == g then 1 else 0
  {
    assert (log + [e])[..|log|] == log;
  }

  // Inside a step: album g may be complete and not sent yet.
  ghost predicate Before(s: State, g: Group) {
    && s.nextMsg > 0 && Messages(s) && Tasks(s) && Log(s)
    && g in s.albums && AlbumOk(s, g, s.albums[g], true)
    && forall h :: h in s.albums && h != g ==> AlbumOk(s, h, s.albums[h], false)
  }

  lemma BusyIsIncomplete(s: State, g: Group)
    requires Before(s, g)
    ensures (exists m :: m in s.uploads && m in s.messages && s.messages[m].group == g) ==> !Complete(s.albums[g].items)
    ensures (exists t :: (g, t) in s.preparing) ==> !Complete(s.albums[g].items)
  {
    var items := s.albums[g].items;
    if m :| m in s.uploads && m in s.messages && s.messages[m].group == g {
      assert Uploading(s, m, g);
      var i :| 0 <= i < |items| && items[i].msg == m;
      assert items[i] in items;
    }
    if t :| (g, t) in s.preparing {
      assert HasTask(s, g, t);
    }
  }

  lemma DroppedKeeps(s: State, g: Group)
    requires Before(s, g) && Complete(s.albums[g].items) && !s.albums[g].sent
    ensures Inv(s.(albums := s.albums - {g}))
  {
    BusyIsIncomplete(s, g);
    var s' := s.(albums := s.albums - {g});
    forall h | h in s'.albums ensures AlbumOk(s', h, s'.albums[h], false) {
      assert AlbumOk(s, h, s.albums[h], false);
      hide Distinct, Count;
      OthersOk(s, s', h);
    }
    hide AlbumOk, HasMsg, Complete, Distinct;
    forall t, h | (h, t) in s'.preparing ensures HasTask(s', h, t) {
      assert HasTask(s, h, t);
    }
    SentMessages(s, s', g);
  }

  // What album h depends on stays.
  lemma OthersOk(s: State, s': State, h: Group)
    requires h in s.albums && h in s'.albums && s'.albums[h] == s.albums[h] && AlbumOk(s, h, s.albums[h], false)
    requires s.used <= s'.used && s.nextMsg <= s'.nextMsg && s.broken <= s'.broken
    requires forall t :: (h, t) in s.preparing <==> (h, t) in s'.preparing
    requires forall x :: x in s.albums[h].items ==> MessageSame(s, s', x.msg)
    requires Count(s'.log, h) == Count(s.log, h) && (h in s'.waiting ==> h in s.waiting)
    ensures AlbumOk(s', h, s'.albums[h], false)
  {
    hide Distinct, Count, Complete;
    forall x | x in s'.albums[h].items ensures ItemOk(s', h, s'.albums[h].sent, x) {
      assert ItemOk(s, h, s.albums[h].sent, x);
    }
  }

  ghost predicate MessageSame(s: State, s': State, m: MsgId) {
    && (m in s'.uploads ==> m in s.uploads)
    && (m in s'.messages <==> m in s.messages)
    && (m in s.messages ==> s'.messages[m] == s.messages[m])
  }

  // What sending out album g changes.
  ghost predicate SentOut(s: State, s': State, g: Group)
    requires g in s.albums
  {
    && s' == s.(albums := s'.albums, log := s'.log, waiting := s'.waiting)
    && (s'.albums == s.albums - {g} || s'.albums == s.albums[g := Album(s.albums[g].items, true)])
    && (forall h :: Count(s'.log, h) == Count(s.log, h) + if h == g then 1 else 0)
    && (forall h :: h in s'.waiting ==> h in s.waiting || (h == g && g in s'.albums))
  }

  lemma SendsOut(s: State, g: Group, e: bool, p: bool)
    requires g in s.albums
    ensures SentOut(s, SendOut(s, g, e, p), g)
  {
    var s' := SendOut(s, g, e, p);
    var sent := s'.log[|s.log|];
    forall h ensures Count(s'.log, h) == Count(s.log, h) + if h == g then 1 else 0 {
      CountMore(s.log, sent, h);
    }
    hide Count;
  }

  lemma SentLog(s: State, s': State, g: Group)
    requires Log(s) && g in s.albums && AlbumOk(s, g, s.albums[g], true) && !s.albums[g].sent && SentOut(s, s', g)
    ensures Log(s')
  {
    hide Count, HasMsg, Distinct;
  }

  lemma SentTasks(s: State, s': State, g: Group)
    requires Tasks(s) && g in s.albums && SentOut(s, s', g) && !exists t :: (g, t) in s.preparing
    ensures Tasks(s')
  {
    hide Count;
    forall h, t | (h, t) in s'.preparing ensures HasTask(s', h, t) {
      assert HasTask(s, h, t);
    }
  }

  lemma SendOutKeeps(s: State, g: Group, e: bool, p: bool)
    requires Before(s, g) && Complete(s.albums[g].items) && !s.albums[g].sent
    ensures Inv(SendOut(s, g, e, p))
  {
    var s' := SendOut(s, g, e, p);
    BusyIsIncomplete(s, g);
    SendsOut(s, g, e, p);
    hide SendOut, AlbumOk, Messages, Tasks, Log, Complete;
    SentAlbums(s, s', g);
    SentMessages(s, s', g);
    SentTasks(s, s', g);
    SentLog(s, s', g);
    hide Albums, SentOut;
  }

  lemma SentAlbums(s: State, s': State, g: Group)
    requires Before(s, g) && Complete(s.albums[g].items) && !s.albums[g].sent && SentOut(s, s', g)
    ensures Albums(s')
  {
    hide Distinct, Count, HasMsg;
    forall h | h in s'.albums && h != g ensures AlbumOk(s', h, s'.albums[h], false) {
      assert AlbumOk(s, h, s.albums[h], false);
      OthersOk(s, s', h);
    }
  }

  lemma SentMessages(s: State, s': State, g: Group)
    requires Messages(s)
    requires s'.albums == s.albums - {g}
      || (g in s.albums && s'.albums == s.albums[g := Album(s.albums[g].items, true)])
    requires s' == s.(albums := s'.albums, log := s'.log, waiting := s'.waiting)
    requires forall m :: m in s.uploads && m in s.messages ==> s.messages[m].group != g
    ensures Messages(s')
  {
    hide HasMsg;
    forall m | m in s'.messages && s'.messages[m].sending ensures InAlbum(s', m, s'.messages[m].group) {
      assert InAlbum(s, m, s.messages[m].group);
    }
    forall m | m in s'.uploads && m in s'.messages ensures Uploading(s', m, s'.messages[m].group) {
      assert Uploading(s, m, s.messages[m].group);
    }
  }

  lemma SendIfReadyKeeps(s: State, g: Group, e: bool, p: bool)
    requires Before(s, g)
    ensures Inv(SendIfReady(s, g, e, p))
  {
    var a := s.albums[g];
    if a.sent || !Complete(a.items) {
      assert AlbumOk(s, g, a, false);
    } else {
      hide AlbumOk, SendOut;
      DroppedKeeps(s, g);
      SendOutKeeps(s, g, e, p);
    }
  }

  lemma AddedKeeps(s: State, s': State, g: Group, tasks: seq<Task>)
    requires Inv(s) && Added(s, s', g, tasks)
    ensures Inv(s')
  {
    var items := s'.albums[g].items;
    assert items[0] in items && tasks[0] in tasks;
    forall h | h in s'.albums && h != g ensures AlbumOk(s', h, s'.albums[h], false) {
      assert AlbumOk(s, h, s.albums[h], false);
      OthersOk(s, s', h);
    }
    forall x | x in items ensures ItemOk(s', g, false, x) {
    }
    hide Count, HasMsg;
    forall h, t | (h, t) in s'.preparing ensures HasTask(s', h, t) {
      if h == g {
        var i :| 0 <= i < |tasks| && tasks[i] == t;
        assert items[i] in items;
      } else {
        assert HasTask(s, h, t);
      }
    }
    forall m | m in s'.messages && s'.messages[m].sending ensures InAlbum(s', m, s'.messages[m].group) {
      assert InAlbum(s, m, s.messages[m].group);
    }
    forall m | m in s'.uploads && m in s'.messages ensures Uploading(s', m, s'.messages[m].group) {
      assert Uploading(s, m, s.messages[m].group);
    }
  }

  // A file that is being prepared still has its item: the checks in removeTask and before the message is made hold.
  lemma TaskIsFound(s: State, g: Group, t: Task)
    requires Inv(s) && (g, t) in s.preparing
    ensures TaskFound(s, g, t)
    ensures s.albums[g].items[FindTask(s.albums[g].items, t)] == Item(t, 0, false)
  {
    assert HasTask(s, g, t);
    var items := s.albums[g].items;
    var x :| x in items && x.task == t && x.msg == 0;
    assert AlbumOk(s, g, s.albums[g], false);
    var i :| 0 <= i < |items| && items[i] == x;
  }

  // One item of album g, that of task u and message m, changes or leaves; m is 0 if it has no message.
  ghost predicate ItemChanged(s: State, s': State, g: Group, u: Task, m: MsgId) {
    && g in s.albums && g in s'.albums && s'.albums == s.albums[g := Album(s'.albums[g].items, s.albums[g].sent)]
    && SomeItems(s.albums[g].items, s'.albums[g].items, u, m)
    && (m == 0 || m == s.nextMsg || (m in s.messages && s.messages[m].group == g))
    && SameElsewhere(s, s', m)
    && (forall h, t :: (h, t) in s'.preparing <==> (h, t) in s.preparing && (h, t) != (g, u))
    && s'.used == s.used && s.nextMsg <= s'.nextMsg && s'.log == s.log
    && s'.waiting == s.waiting && s.broken <= s'.broken
  }

  ghost predicate SameElsewhere(s: State, s': State, m: MsgId) {
    && (forall n :: n in s'.messages && n != m ==> n in s.messages && s'.messages[n] == s.messages[n])
    && (forall n :: n in s.messages && n != m ==> n in s'.messages)
    && (forall n :: n in s'.uploads && n != m ==> n in s.uploads)
    && (m == 0 ==> s'.messages == s.messages && s'.uploads == s.uploads)
  }

  ghost predicate SomeItems(items: seq<Item>, items': seq<Item>, u: Task, m: MsgId) {
    && (forall x :: x in items && x.task != u ==> x in items' && (x.msg != m || m == 0))
    && (forall x :: x in items' && x.task != u ==> x in items)
    && (forall x :: (x in items || x in items') && x.task == u ==> x.msg == m || x.msg == 0)
  }

  // What a step must show about the item that changed.
  ghost predicate ChangeOk(s: State, g: Group, u: Task, m: MsgId) {
    && g in s.albums && Distinct(s.albums[g].items)
    && (forall x :: x in s.albums[g].items && x.task == u ==> ItemOk(s, g, s.albums[g].sent, x))
    && (m in s.messages ==>
          0 < m < s.nextMsg && s.messages[m].group in s.used
          && (s.messages[m].sending ==> InAlbum(s, m, s.messages[m].group)))
    && (m in s.uploads ==> 0 < m < s.nextMsg && (m in s.messages ==> Uploading(s, m, s.messages[m].group)))
  }

  lemma HasMsgIn(items: seq<Item>, m: MsgId)
    ensures HasMsg(items, m) <==> exists x :: x in items && x.msg == m
  {
    if x :| x in items && x.msg == m {
      var i :| 0 <= i < |items| && items[i] == x;
      assert items[i].msg == m;
    }
    if HasMsg(items, m) {
      var i :| 0 <= i < |items| && items[i].msg == m;
      assert items[i] in items;
    }
  }

  lemma ChangedAlbum(s: State, s': State, g: Group, u: Task, m: MsgId)
    requires Albums(s) && Messages(s) && ItemChanged(s, s', g, u, m) && ChangeOk(s', g, u, m)
    ensures AlbumOk(s', g, s'.albums[g], true)
  {
    assert AlbumOk(s, g, s.albums[g], false);
    hide Distinct, Count;
    forall x | x in s'.albums[g].items ensures ItemOk(s', g, s'.albums[g].sent, x) {
      if x.task != u {
        assert ItemOk(s, g, s.albums[g].sent, x);
      }
    }
  }

  lemma ChangedOthers(s: State, s': State, g: Group, u: Task, m: MsgId)
    requires Albums(s) && Messages(s) && ItemChanged(s, s', g, u, m)
    ensures forall h :: h in s'.albums && h != g ==> AlbumOk(s', h, s'.albums[h], false)
  {
    hide Distinct, Count, SomeItems, HasMsg;
    forall h | h in s'.albums && h != g ensures AlbumOk(s', h, s'.albums[h], false) {
      assert AlbumOk(s, h, s.albums[h], false);
      forall x | x in s.albums[h].items ensures MessageSame(s, s', x.msg) {
        assert ItemOk(s, h, s.albums[h].sent, x);
      }
      OthersOk(s, s', h);
    }
  }

  lemma ChangedMessages(s: State, s': State, g: Group, u: Task, m: MsgId)
    requires Messages(s) && ItemChanged(s, s', g, u, m) && ChangeOk(s', g, u, m)
    ensures Messages(s')
  {
    forall n | n in s.messages && n != m ensures HasMsg(s'.albums[g].items, n) <==> HasMsg(s.albums[g].items, n) {
      HasMsgIn(s.albums[g].items, n);
      HasMsgIn(s'.albums[g].items, n);
    }
    hide HasMsg, SomeItems, Distinct;
    forall n | n in s'.messages && s'.messages[n].sending ensures InAlbum(s', n, s'.messages[n].group) {
      assert n != m ==> InAlbum(s, n, s.messages[n].group);
    }
    forall n | n in s'.uploads && n in s'.messages ensures Uploading(s', n, s'.messages[n].group) {
      assert n != m ==> Uploading(s, n, s.messages[n].group);
    }
  }

  lemma ChangedTasks(s: State, s': State, g: Group, u: Task, m: MsgId)
    requires Tasks(s) && ItemChanged(s, s', g, u, m)
    ensures Tasks(s')
  {
    hide SameElsewhere;
    forall h, t | (h, t) in s'.preparing ensures HasTask(s', h, t) {
      assert HasTask(s, h, t);
    }
  }

  lemma ChangedKeeps(s: State, s': State, g: Group, u: Task, m: MsgId)
    requires Inv(s) && ItemChanged(s, s', g, u, m) && ChangeOk(s', g, u, m)
    ensures Before(s', g)
  {
    ChangedAlbum(s, s', g, u, m);
    ChangedOthers(s, s', g, u, m);
    ChangedMessages(s, s', g, u, m);
    ChangedTasks(s, s', g, u, m);
    hide AlbumOk, Messages, Tasks, ChangeOk, SomeItems, SameElsewhere, Count;
  }

  lemma WithoutSome(items: seq<Item>, i: nat)
    requires Distinct(items) && i < |items|
    ensures SomeItems(items, Without(items, i), items[i].task, items[i].msg) && Distinct(Without(items, i))
    ensures forall x :: x in Without(items, i) ==> x.task != items[i].task
  {
    WithoutOne(items, i);
    assert items[i] in items;
    forall x | x in items && x != items[i] ensures x.task != items[i].task && (x.msg == 0 || x.msg != items[i].msg) {
      var j :| 0 <= j < |items| && items[j] == x;
    }
  }

  lemma ReplacedSome(items: seq<Item>, i: nat, y: Item, m: MsgId)
    requires Distinct(items) && i < |items| && y.task == items[i].task && y.msg == m
    requires items[i].msg == m || (items[i].msg == 0 && forall x :: x in items ==> x.msg != m)
    ensures SomeItems(items, items[i := y], y.task, m) && Distinct(items[i := y])
    ensures y in items[i := y] && forall x :: x in items[i := y] && x.task == y.task ==> x == y
  {
    ReplacedOne(items, i, y);
    assert items[i] in items;
    forall x | x in items && x != items[i] ensures x.task != items[i].task && (x.msg == 0 || x.msg != items[i].msg) {
      var j :| 0 <= j < |items| && items[j] == x;
    }
  }

  // An unsent album that is not complete keeps the invariant too.
  lemma Unready(s: State, g: Group)
    requires Before(s, g) && (s.albums[g].sent || !Complete(s.albums[g].items) || g in s.broken)
    ensures Inv(s)
  {
    hide Count, Distinct, HasMsg;
    assert AlbumOk(s, g, s.albums[g], false);
  }

  lemma PreparedKeeps(s: State, g: Group, t: Task)
    requires Inv(s) && (g, t) in s.preparing
    ensures TaskFound(s, g, t) && Inv(Prepared(s, g, t))
  {
    PreparedChanges(s, g, t);
    hide Inv, Before, ItemChanged, ChangeOk, Prepared, TaskFound, Complete;
    ChangedKeeps(s, Prepared(s, g, t), g, t, s.nextMsg);
    Unready(Prepared(s, g, t), g);
  }

  // The items that Prepared leaves in its album.
  lemma PreparedItems(s: State, g: Group, t: Task)
    requires Inv(s) && (g, t) in s.preparing
    ensures TaskFound(s, g, t) && !s.albums[g].sent
    ensures var items, items' := s.albums[g].items, Prepared(s, g, t).albums[g].items;
      SomeItems(items, items', t, s.nextMsg) && Distinct(items') && HasMsg(items', s.nextMsg)
      && Item(t, s.nextMsg, false) in items'
      && forall x :: x in items' && x.task == t ==> x == Item(t, s.nextMsg, false)
  {
    TaskIsFound(s, g, t);
    var items := s.albums[g].items;
    var i := FindTask(items, t);
    var y := Item(t, s.nextMsg, false);
    assert AlbumOk(s, g, s.albums[g], false);
    assert forall x :: x in items ==> ItemOk(s, g, s.albums[g].sent, x);
    ReplacedSome(items, i, y, s.nextMsg);
    assert Prepared(s, g, t).albums[g].items == items[i := y];
    HasMsgIn(items[i := y], s.nextMsg);
    assert HasTask(s, g, t);
    hide Distinct, HasMsg, SomeItems, Count;
  }

  lemma PreparedChanges(s: State, g: Group, t: Task)
    requires Inv(s) && (g, t) in s.preparing
    ensures TaskFound(s, g, t)
    ensures var s' := Prepared(s, g, t);
      ItemChanged(s, s', g, t, s.nextMsg) && ChangeOk(s', g, t, s.nextMsg)
      && g in s'.albums && !Complete(s'.albums[g].items)
  {
    PreparedItems(s, g, t);
    assert AlbumOk(s, g, s.albums[g], false);
    hide FindTask, Distinct, HasMsg, SomeItems, Count, Log, Tasks;
    assert ItemOk(Prepared(s, g, t), g, false, Item(t, s.nextMsg, false));
  }

  lemma TaskFailedKeeps(s: State, g: Group, t: Task)
    requires Inv(s) && (g, t) in s.preparing
    ensures TaskFound(s, g, t) && Inv(TaskFailed(s, g, t))
  {
    TaskIsFound(s, g, t);
    var s' := TaskFailed(s, g, t);
    var items := s.albums[g].items;
    var i := FindTask(items, t);
    assert AlbumOk(s, g, s.albums[g], false);
    WithoutSome(items, i);
    assert s'.albums[g].items == Without(items, i);
    hide Distinct, HasMsg, SomeItems, AlbumOk, Count, Without;
    ChangedKeeps(s, s', g, t, 0);
    hide Before;
    Unready(s', g);
  }

  // The Asserts on the way of an uploaded media hold: its album is known, it has the item, without media.
  lemma UploadFindsItsItem(s: State, m: MsgId)
    requires Inv(s) && m in s.uploads && m in s.messages
    ensures MayFill(s, m) && !s.albums[s.messages[m].group].sent
    ensures var items := s.albums[s.messages[m].group].items;
      items[FindMsg(items, m)].msg == m && items[FindMsg(items, m)] in items
  {
    var g := s.messages[m].group;
    assert Uploading(s, m, g);
    var items := s.albums[g].items;
    var j :| 0 <= j < |items| && items[j].msg == m;
    assert AlbumOk(s, g, s.albums[g], false);
    var i := FindMsg(items, m);
    assert items[i] in items;
    assert ItemOk(s, g, false, items[i]);
  }

  lemma FilledKeeps(s: State, m: MsgId)
    requires Inv(s) && m in s.uploads && m in s.messages && MayFill(s, m)
    ensures MayFill(s.(uploads := s.uploads - {m}), m)
    ensures Before(Filled(s.(uploads := s.uploads - {m}), m), s.messages[m].group)
  {
    UploadFindsItsItem(s, m);
    var s1 := s.(uploads := s.uploads - {m});
    var s' := Filled(s1, m);
    var g := s.messages[m].group;
    var items := s.albums[g].items;
    var i := FindMsg(items, m);
    var y := items[i].(media := true);
    assert AlbumOk(s, g, s.albums[g], false);
    assert ItemOk(s, g, false, items[i]);
    ReplacedSome(items, i, y, m);
    assert s'.albums[g].items == items[i := y];
    HasMsgIn(items[i := y], m);
    hide Distinct, HasMsg, SomeItems, AlbumOk, Count;
    assert ItemOk(s', g, false, y);
    ChangedKeeps(s, s', g, y.task, m);
  }

  // A message that is still being sent is in its album, if the album is known.
  lemma CancelFindsItsItem(s: State, m: MsgId)
    requires Inv(s) && Cancels(s, m)
    ensures MayRemove(s, m)
    ensures var items := s.albums[s.messages[m].group].items;
      items[FindMsg(items, m)].msg == m && items[FindMsg(items, m)] in items
  {
    var g := s.messages[m].group;
    assert InAlbum(s, m, g);
    var items := s.albums[g].items;
    var j :| 0 <= j < |items| && items[j].msg == m;
    assert items[FindMsg(items, m)] in items;
  }

  ghost predicate NoneIs(items: seq<Item>, m: MsgId) { forall x :: x in items ==> x.msg != m }

  lemma {:induction false} ExistingSame(messages: map<MsgId, Message>, items: seq<Item>, m: MsgId)
    requires NoneIs(items, m)
    ensures Existing(messages - {m}, items) == Existing(messages, items)
    decreases |items|
  {
    if items == [] {
    } else {
      assert items[|items| - 1] in items;
      ExistingSame(messages, items[..|items| - 1], m);
    }
  }

  // Unregistering a message that is in no item can as well be done before the album is sent.
  lemma UnregisterFirst(s: State, g: Group, m: MsgId, e: bool, p: bool)
    requires g in s.albums && NoneIs(s.albums[g].items, m)
    ensures var s1 := SendIfReady(s, g, e, p);
      s1.(messages := s1.messages - {m}) == SendIfReady(s.(messages := s.messages - {m}), g, e, p)
  {
    var items := s.albums[g].items;
    ExistingSame(s.messages, items, m);
    var s2 := s.(messages := s.messages - {m});
    assert AnyMessage(s2, items) <==> AnyMessage(s, items) by {
      if x :| x in items && x.msg in s.messages {
        assert x.msg in s2.messages;
      }
    }
    hide AnyMessage, Existing, Complete, NoneIs;
  }

  lemma RemovedKeeps(s: State, m: MsgId)
    requires Inv(s) && Cancels(s, m) && MayRemove(s, m)
    ensures var g := s.messages[m].group;
      var s1 := ItemRemoved(s, m);
      NoneIs(s1.albums[g].items, m) && Before(s1.(messages := s.messages - {m}), g)
  {
    CancelFindsItsItem(s, m);
    var g := s.messages[m].group;
    var items := s.albums[g].items;
    var i := FindMsg(items, m);
    var s' := ItemRemoved(s, m).(messages := s.messages - {m});
    assert AlbumOk(s, g, s.albums[g], false);
    assert ItemOk(s, g, s.albums[g].sent, items[i]);
    WithoutSome(items, i);
    assert s'.albums[g].items == Without(items, i);
    hide Distinct, HasMsg, AlbumOk, Count, Without;
    assert 0 < m < s.nextMsg;
    ChangedKeeps(s, s', g, items[i].task, m);
  }

  lemma DestroyedKeeps(s: State, m: MsgId, e: bool, p: bool)
    requires Inv(s)
    ensures (Cancels(s, m) ==> MayRemove(s, m)) && Inv(Destroyed(s, m, e, p))
  {
    if Cancels(s, m) {
      CancelFindsItsItem(s, m);
      var g := s.messages[m].group;
      RemovedKeeps(s, m);
      var s1 := ItemRemoved(s, m);
      hide Inv, Before, SendIfReady;
      UnregisterFirst(s1, g, m, e, p);
      SendIfReadyKeeps(s1.(messages := s1.messages - {m}), g, e, p);
    } else {
      UnregisteredKeeps(s, s.messages - {m});
    }
  }

  // Messages that are not being sent, or whose album is gone, may go.
  lemma UnregisteredKeeps(s: State, left: map<MsgId, Message>)
    requires Inv(s)
    requires forall m :: m in left ==> m in s.messages && left[m] == s.messages[m]
    requires forall m :: m in s.messages && m !in left ==> !Cancels(s, m)
    ensures Inv(s.(messages := left))
  {
    var s' := s.(messages := left);
    hide HasMsg, Count, Distinct;
    forall h | h in s'.albums ensures AlbumOk(s', h, s'.albums[h], false) {
      assert AlbumOk(s, h, s.albums[h], false);
      forall x | x in s'.albums[h].items ensures ItemOk(s', h, s'.albums[h].sent, x) {
        assert ItemOk(s, h, s.albums[h].sent, x);
      }
    }
    forall h, t | (h, t) in s'.preparing ensures HasTask(s', h, t) {
      assert HasTask(s, h, t);
    }
    forall m | m in s'.messages && s'.messages[m].sending ensures InAlbum(s', m, s'.messages[m].group) {
      assert InAlbum(s, m, s.messages[m].group);
    }
    forall m | m in s'.uploads && m in s'.messages ensures Uploading(s', m, s'.messages[m].group) {
      assert Uploading(s, m, s.messages[m].group);
    }
  }

  lemma UploadEndedKeeps(s: State, m: MsgId)
    requires Inv(s)
    ensures Inv(UploadFailed(s, m))
  {
    var s' := UploadFailed(s, m);
    hide HasMsg, Count, Distinct;
    forall h | h in s'.albums ensures AlbumOk(s', h, s'.albums[h], false) {
      assert AlbumOk(s, h, s.albums[h], false);
      forall x | x in s'.albums[h].items ensures ItemOk(s', h, s'.albums[h].sent, x) {
        assert ItemOk(s, h, s.albums[h].sent, x);
      }
    }
    forall h, t | (h, t) in s'.preparing ensures HasTask(s', h, t) {
      assert HasTask(s, h, t);
    }
    forall n | n in s'.messages && s'.messages[n].sending ensures InAlbum(s', n, s'.messages[n].group) {
      assert InAlbum(s, n, s.messages[n].group);
    }
    forall n | n in s'.uploads && n in s'.messages ensures Uploading(s', n, s'.messages[n].group) {
      assert Uploading(s, n, s.messages[n].group);
    }
  }

  lemma UploadedKeeps(s: State, m: MsgId, e: bool, p: bool)
    requires Inv(s) && m in s.uploads
    ensures (m in s.messages ==> MayFill(s, m)) && Inv(Uploaded(s, m, e, p))
  {
    if m in s.messages {
      UploadFindsItsItem(s, m);
      FilledKeeps(s, m);
      hide Inv, Before, SendIfReady, Filled;
      SendIfReadyKeeps(Filled(s.(uploads := s.uploads - {m}), m), s.messages[m].group, e, p);
    } else {
      UploadEndedKeeps(s, m);
    }
  }

  lemma OfAlbum(s: State, g: Group)
    requires Inv(s) && g in s.albums && s.albums[g].sent
    ensures forall m :: m in s.messages && HasMsg(s.albums[g].items, m) ==> s.messages[m].group == g
  {
    assert AlbumOk(s, g, s.albums[g], false);
    forall m | m in s.messages && HasMsg(s.albums[g].items, m) ensures s.messages[m].group == g {
      var i :| 0 <= i < |s.albums[g].items| && s.albums[g].items[i].msg == m;
      assert ItemOk(s, g, true, s.albums[g].items[i]);
    }
  }

  lemma EndedAlbums(s: State, s': State, g: Group)
    requires Albums(s) && g in s.albums && s.albums[g].sent
    requires s'.albums == s.albums || s'.albums == s.albums - {g}
    requires s' == s.(albums := s'.albums, messages := s'.messages, waiting := s'.waiting)
    requires s'.waiting == s.waiting - {g}
    requires forall m :: m in s'.messages ==> m in s.messages && s'.messages[m].group == s.messages[m].group
    requires forall m :: m in s.messages && (m !in s'.messages || s'.messages[m] != s.messages[m]) ==>
               s.messages[m].group == g
    ensures Albums(s')
  {
    hide HasMsg, Count, Distinct;
    forall h | h in s'.albums ensures AlbumOk(s', h, s'.albums[h], false) {
      assert AlbumOk(s, h, s.albums[h], false);
      forall x | x in s'.albums[h].items ensures ItemOk(s', h, s'.albums[h].sent, x) {
        assert ItemOk(s, h, s.albums[h].sent, x);
      }
    }
  }

  // The album of a response leaves, or the sending of some of its messages ends.
  lemma EndedKeeps(s: State, s': State, g: Group)
    requires Inv(s) && g in s.albums && s.albums[g].sent
    requires s'.albums == s.albums || s'.albums == s.albums - {g}
    requires s' == s.(albums := s'.albums, messages := s'.messages, waiting := s'.waiting)
    requires s'.waiting == s.waiting - {g}
    requires forall m :: m in s'.messages ==> m in s.messages && s'.messages[m].group == s.messages[m].group
    requires forall m :: m in s.messages && (m !in s'.messages || s'.messages[m] != s.messages[m]) ==>
               HasMsg(s.albums[g].items, m) && (m in s'.messages ==> !s'.messages[m].sending)
    ensures Inv(s')
  {
    OfAlbum(s, g);
    EndedAlbums(s, s', g);
    hide HasMsg, Count, Distinct, Albums;
    forall h, t | (h, t) in s'.preparing ensures HasTask(s', h, t) {
      assert HasTask(s, h, t);
    }
    forall n | n in s'.messages && s'.messages[n].sending ensures InAlbum(s', n, s'.messages[n].group) {
      assert InAlbum(s, n, s.messages[n].group);
    }
    forall n | n in s'.uploads && n in s'.messages ensures Uploading(s', n, s'.messages[n].group) {
      assert Uploading(s, n, s.messages[n].group);
    }
  }

  lemma RespondedKeeps(s: State, s': State, g: Group, ok: bool)
    requires Inv(s) && Responded(s, s', g, ok)
    ensures Inv(s')
  {
    var items := s.albums[g].items;
    if s.waiting[g].Paid? && !ok {
      var first :| s' == s.(waiting := s.waiting - {g}, messages := Ended(s.messages, [first]))
        && (first in items || first.msg !in s.messages);
      HasMsgIn(items, first.msg);
      forall m ensures HasMsg([first], m) <==> m == first.msg {
        HasMsgIn([first], m);
      }
    }
    hide Albums, Messages, Tasks, HasMsg;
    EndedKeeps(s, s', g);
  }

  lemma NextKeeps(s: State, s': State)
    requires Inv(s) && Next(s, s')
    ensures Inv(s')
  {
    hide Inv, Added, Responded, Prepared, TaskFailed, Uploaded, Destroyed, UploadFailed;
    hide MayFill, MayRemove, Cancels, TaskFound;
    if g, tasks :| Added(s, s', g, tasks) {
      AddedKeeps(s, s', g, tasks);
    } else if g, t :|
        (g, t) in s.preparing && TaskFound(s, g, t) && (s' == Prepared(s, g, t) || s' == TaskFailed(s, g, t)) {
      PreparedKeeps(s, g, t);
      TaskFailedKeeps(s, g, t);
    } else if m :| Uploads(s, s', m) {
      UploadEndedKeeps(s, m);
      if e, p :| (m in s.messages ==> MayFill(s, m)) && s' == Uploaded(s, m, e, p) {
        UploadedKeeps(s, m, e, p);
      }
    } else if m :| Destroys(s, s', m) {
      var e, p :| s' == Destroyed(s, m, e, p);
      DestroyedKeeps(s, m, e, p);
    } else {
      var g, ok :| Responded(s, s', g, ok);
      RespondedKeeps(s, s', g, ok);
    }
  }

  lemma {:induction false} RunKeeps(run: seq<State>, n: nat)
    requires IsRun(run) && n < |run|
    ensures Inv(run[n])
  {
    if n == 0 {
    } else {
      RunKeeps(run, n - 1);
      hide Inv, Next;
      NextKeeps(run[n - 1], run[n]);
    }
  }

  // Theorems

  // In every run an album is sent at most once.
  lemma SentAtMostOnce(run: seq<State>, n: nat, g: Group)
    requires IsRun(run) && n < |run|
    ensures Count(run[n].log, g) <= 1
  {
    RunKeeps(run, n);
  }

  // No Assert on the way of an upload fails, whatever was sent, cancelled or failed before.
  lemma UploadAssertsHold(run: seq<State>, n: nat, m: MsgId)
    requires IsRun(run) && n < |run| && m in run[n].uploads && m in run[n].messages
    ensures MayFill(run[n], m)
  {
    RunKeeps(run, n);
    hide IsRun, Inv, MayFill;
    UploadFindsItsItem(run[n], m);
  }

  // Nor does the one for a cancelled message.
  lemma CancelAssertHolds(run: seq<State>, n: nat, m: MsgId)
    requires IsRun(run) && n < |run| && Cancels(run[n], m)
    ensures MayRemove(run[n], m)
  {
    RunKeeps(run, n);
    hide IsRun, Inv, MayRemove;
    CancelFindsItsItem(run[n], m);
  }

  // Nor the ones for a prepared file.
  lemma TaskAssertsHold(run: seq<State>, n: nat, g: Group, t: Task)
    requires IsRun(run) && n < |run| && (g, t) in run[n].preparing
    ensures TaskFound(run[n], g, t)
  {
    RunKeeps(run, n);
    hide IsRun, Inv, TaskFound;
    TaskIsFound(run[n], g, t);
  }

  // What one call sends: all items that are left, each with media, none of them still preparing or uploading.
  lemma CallSendsWhole(s: State, g: Group, e: bool, p: bool)
    requires Before(s, g) && SendIfReady(s, g, e, p).log != s.log
    ensures var items := s.albums[g].items;
      && SendIfReady(s, g, e, p).log
        == s.log + [Sent(g, WayFor(items, e, p), if e then Existing(s.messages, items) else Msgs(items))]
      && Complete(items) && (forall m :: m in s.uploads && m in s.messages ==> s.messages[m].group != g)
      && (forall t :: (g, t) !in s.preparing) && Count(s.log, g) == 0 && !s.albums[g].sent
  {
    BusyIsIncomplete(s, g);
  }

  // Message m just got its media, or was just cancelled; items is what its album then holds.
  ghost predicate SendsWhole(s: State, s': State, m: MsgId, items: seq<Item>, e: bool, p: bool) {
    && m in s.messages && s.messages[m].group in s.albums
    && var g := s.messages[m].group;
       var before := s.albums[g].items;
       var i := FindMsg(before, m);
       && i < |before| && (items == before[i := before[i].(media := true)] || items == Without(before, i))
       && !s.albums[g].sent && Count(s.log, g) == 0 && Complete(items)
       && s'.log
         == s.log + [Sent(g, WayFor(items, e, p), if e then Existing(s'.messages, items) else Msgs(items))]
       && (forall t :: (g, t) !in s'.preparing)
       && (forall u :: u in s'.uploads && u in s'.messages ==> s'.messages[u].group != g)
  }

  lemma CallFrame(s: State, g: Group, e: bool, p: bool)
    requires g in s.albums
    ensures var s' := SendIfReady(s, g, e, p);
      && s'.messages == s.messages && s'.preparing == s.preparing && s'.uploads == s.uploads
      && forall h :: h != g && h in s.albums ==> h in s'.albums && s'.albums[h] == s.albums[h]
  {
  }

  lemma UploadSendsWhole(s: State, m: MsgId, e: bool, p: bool)
    requires Inv(s) && m in s.uploads && (m in s.messages ==> MayFill(s, m)) && Uploaded(s, m, e, p).log != s.log
    ensures m in s.messages
    ensures var s1 := Filled(s.(uploads := s.uploads - {m}), m);
      SendsWhole(s, Uploaded(s, m, e, p), m, s1.albums[s.messages[m].group].items, e, p)
  {
    FilledKeeps(s, m);
    var s1 := Filled(s.(uploads := s.uploads - {m}), m);
    hide Inv, Before, Complete, Count, Existing;
    CallSendsWhole(s1, s.messages[m].group, e, p);
    CallFrame(s1, s.messages[m].group, e, p);
    hide SendIfReady;
  }

  lemma DestroySendsWhole(s: State, m: MsgId, e: bool, p: bool)
    requires Inv(s) && (Cancels(s, m) ==> MayRemove(s, m)) && Destroyed(s, m, e, p).log != s.log
    ensures Cancels(s, m)
    ensures SendsWhole(s, Destroyed(s, m, e, p), m, ItemRemoved(s, m).albums[s.messages[m].group].items, e, p)
  {
    RemovedKeeps(s, m);
    var g := s.messages[m].group;
    var s1 := ItemRemoved(s, m);
    var s2 := s1.(messages := s1.messages - {m});
    UnregisterFirst(s1, g, m, e, p);
    hide Inv, Before, Complete, Count, Existing;
    CallSendsWhole(s2, g, e, p);
    CallFrame(s2, g, e, p);
    hide SendIfReady;
  }

  lemma OthersSendNothing(s: State, s': State)
    requires (exists g, tasks :: Added(s, s', g, tasks)) || (exists g, ok :: Responded(s, s', g, ok))
      || (exists g, t :: TaskFound(s, g, t) && (s' == Prepared(s, g, t) || s' == TaskFailed(s, g, t)))
    ensures s'.log == s.log
  {
    if g, tasks :| Added(s, s', g, tasks) {
    } else if g, ok :| Responded(s, s', g, ok) {
    }
  }

  lemma StepSendsWhole(s: State, s': State)
    requires Inv(s) && Next(s, s') && s'.log != s.log
    ensures exists m, items, e, p :: SendsWhole(s, s', m, items, e, p)
  {
    hide Inv, Added, Responded, Prepared, TaskFailed, Uploaded, Destroyed, SendsWhole, TaskFound;
    if m :| Uploads(s, s', m) {
      if e, p :| (m in s.messages ==> MayFill(s, m)) && s' == Uploaded(s, m, e, p) {
        UploadSendsWhole(s, m, e, p);
      }
    } else if m :| Destroys(s, s', m) {
      var e, p :| s' == Destroyed(s, m, e, p);
      DestroySendsWhole(s, m, e, p);
    } else {
      OthersSendNothing(s, s');
    }
  }

  // In every run, a step that sends something sends the whole album of the message it is about: every item that the
  // album then holds, each with media, while nothing of it is being prepared or uploaded.
  lemma SentIsComplete(run: seq<State>, n: nat)
    requires IsRun(run) && n + 1 < |run| && run[n + 1].log != run[n].log
    ensures var s, s' := run[n], run[n + 1];
      exists m, items, e, p :: SendsWhole(s, s', m, items, e, p)
  {
    RunKeeps(run, n);
    hide Inv, Next;
    StepSendsWhole(run[n], run[n + 1]);
  }

  // A failed preparation does not look whether the album is ready now: an album all of whose items have media is
  // left unsent only after such a failure.
  lemma ReadyButUnsent(run: seq<State>, n: nat, g: Group)
    requires IsRun(run) && n < |run| && g in run[n].albums && !run[n].albums[g].sent && Complete(run[n].albums[g].items)
    ensures g in run[n].broken
  {
    RunKeeps(run, n);
    assert AlbumOk(run[n], g, run[n].albums[g], false);
  }

  // There is something to send, it is ready, and it was not sent.
  predicate Stranded(s: State, g: Group) {
    g in s.albums && !s.albums[g].sent && s.albums[g].items != [] && Complete(s.albums[g].items)
  }

  // A failed preparation strands the album exactly when the failed file was the only one without media, and not the
  // only one at all.
  lemma FailureMayStrand(run: seq<State>, n: nat, g: Group, t: Task)
    requires IsRun(run) && n < |run| && (g, t) in run[n].preparing
    ensures TaskFound(run[n], g, t)
    ensures var s := run[n];
      var s' := TaskFailed(s, g, t);
      s'.log == s.log
      && (Stranded(s', g) <==>
          |s.albums[g].items| > 1 && forall x :: x in s.albums[g].items && !x.media ==> x.task == t)
  {
    RunKeeps(run, n);
    var s := run[n];
    TaskIsFound(s, g, t);
    var items := s.albums[g].items;
    assert AlbumOk(s, g, s.albums[g], false);
    WithoutOne(items, FindTask(items, t));
    WithoutSome(items, FindTask(items, t));
    assert HasTask(s, g, t);
  }

  // The step destroys a message of the album.
  ghost predicate Touches(s: State, s': State, g: Group) {
    g in s.albums && exists m :: HasMsg(s.albums[g].items, m) && Destroys(s, s', m)
  }

  ghost predicate Same(s: State, s': State, g: Group) {
    g in s.albums && g in s'.albums && s'.albums[g] == s.albums[g]
  }

  // Nothing of a stranded album is at work.
  lemma StrandedIsIdle(s: State, g: Group)
    requires Inv(s) && Stranded(s, g)
    ensures forall t :: (g, t) !in s.preparing
    ensures forall m :: m in s.uploads && m in s.messages ==> s.messages[m].group != g
    ensures g in s.used && g !in s.waiting
    ensures forall m :: HasMsg(s.albums[g].items, m) ==> Cancels(s, m) && s.messages[m].group == g
  {
    assert AlbumOk(s, g, s.albums[g], false);
    var items := s.albums[g].items;
    assert Before(s, g) by { InvIsBefore(s, g); }
    BusyIsIncomplete(s, g);
    forall m | HasMsg(items, m) ensures Cancels(s, m) && s.messages[m].group == g && m !in s.uploads {
      var i :| 0 <= i < |items| && items[i].msg == m;
      assert ItemOk(s, g, false, items[i]);
    }
  }

  lemma InvIsBefore(s: State, g: Group)
    requires Inv(s) && g in s.albums
    ensures Before(s, g)
  {
    assert AlbumOk(s, g, s.albums[g], false);
    hide HasMsg, Count, Distinct;
  }

  // An album without items is dropped, and a complete one of which a message exists is sent.
  lemma ReadyIsSent(s: State, g: Group, e: bool, p: bool)
    requires g in s.albums && !s.albums[g].sent && Complete(s.albums[g].items)
    requires s.albums[g].items != [] ==> AnyMessage(s, s.albums[g].items)
    ensures var s' := SendIfReady(s, g, e, p);
      && (g in s'.albums ==> s'.albums[g].sent)
      && Count(s'.log, g) == Count(s.log, g) + if s.albums[g].items == [] then 0 else 1
  {
    var s' := SendIfReady(s, g, e, p);
    if s.albums[g].items != [] {
      CountMore(s.log, s'.log[|s.log|], g);
    }
    hide Count, Complete, AnyMessage;
  }

  // What is left of a stranded album when message m goes.
  lemma LeftBehind(s: State, m: MsgId, g: Group)
    requires Inv(s) && Stranded(s, g) && HasMsg(s.albums[g].items, m) && MayRemove(s, m) && s.messages[m].group == g
    ensures var s1 := ItemRemoved(s, m);
      var left := s1.albums[g].items;
      !s1.albums[g].sent && Complete(left) && |left| == |s.albums[g].items| - 1
      && (left != [] ==> AnyMessage(s1, left)) && s1.log == s.log && Count(s.log, g) == 0
  {
    var items := s.albums[g].items;
    assert AlbumOk(s, g, s.albums[g], false);
    WithoutOne(items, FindMsg(items, m));
    var left := ItemRemoved(s, m).albums[g].items;
    if left != [] {
      assert left[0] in left && left[0] in items;
      assert ItemOk(s, g, false, left[0]);
    }
    hide Count, Distinct;
  }

  // Destroying one of several sends the rest; destroying the last one drops the album.
  lemma TouchReleases(s: State, m: MsgId, g: Group, e: bool, p: bool)
    requires Inv(s) && Stranded(s, g) && HasMsg(s.albums[g].items, m)
    ensures Cancels(s, m) && MayRemove(s, m)
    ensures var s' := Destroyed(s, m, e, p);
      !Same(s, s', g) && Count(s'.log, g) == (if |s.albums[g].items| > 1 then 1 else 0)
      && (g in s'.albums ==> s'.albums[g].sent)
  {
    StrandedIsIdle(s, g);
    CancelFindsItsItem(s, m);
    LeftBehind(s, m, g);
    hide Inv, HasMsg, Complete, AnyMessage, MayRemove, ItemRemoved, SendIfReady;
    ReadyIsSent(ItemRemoved(s, m), g, e, p);
    hide Count;
  }

  lemma DestroyElsewhere(s: State, m: MsgId, g: Group, e: bool, p: bool)
    requires Inv(s) && Stranded(s, g) && !HasMsg(s.albums[g].items, m) && (Cancels(s, m) ==> MayRemove(s, m))
    ensures Same(s, Destroyed(s, m, e, p), g)
  {
    if Cancels(s, m) {
      assert InAlbum(s, m, s.messages[m].group);
      CallFrame(ItemRemoved(s, m), s.messages[m].group, e, p);
      hide SendIfReady;
    }
  }

  lemma UploadElsewhere(s: State, s': State, m: MsgId, g: Group)
    requires Inv(s) && Stranded(s, g) && Uploads(s, s', m)
    ensures Same(s, s', g)
  {
    StrandedIsIdle(s, g);
    if e, p :| (m in s.messages ==> MayFill(s, m)) && s' == Uploaded(s, m, e, p) {
      if m in s.messages {
        CallFrame(Filled(s.(uploads := s.uploads - {m}), m), s.messages[m].group, e, p);
      }
      hide SendIfReady;
    }
  }

  lemma AddedElsewhere(s: State, s': State, g: Group, h: Group, tasks: seq<Task>)
    requires g in s.albums && g in s.used && Added(s, s', h, tasks)
    ensures Same(s, s', g)
  {
    hide Unprepared;
  }

  lemma RespondedElsewhere(s: State, s': State, g: Group, h: Group, ok: bool)
    requires g in s.albums && g !in s.waiting && Responded(s, s', h, ok)
    ensures Same(s, s', g)
  {
    hide RemovedOnly, Ended;
  }

  lemma TaskElsewhere(s: State, g: Group, h: Group, t: Task)
    requires g in s.albums && (g, t) !in s.preparing && (h, t) in s.preparing && TaskFound(s, h, t)
    ensures Same(s, Prepared(s, h, t), g) && Same(s, TaskFailed(s, h, t), g)
  {
    hide FindTask, Without;
  }

  lemma OthersElsewhere(s: State, s': State, g: Group)
    requires Inv(s) && Stranded(s, g)
    requires (exists h, tasks :: Added(s, s', h, tasks)) || (exists h, ok :: Responded(s, s', h, ok))
      || (exists h, t ::
            (h, t) in s.preparing && TaskFound(s, h, t) && (s' == Prepared(s, h, t) || s' == TaskFailed(s, h, t)))
    ensures Same(s, s', g)
  {
    StrandedIsIdle(s, g);
    hide Inv, Same, Added, Responded, Prepared, TaskFailed, TaskFound, HasMsg;
    if h, tasks :| Added(s, s', h, tasks) {
      AddedElsewhere(s, s', g, h, tasks);
    } else if h, ok :| Responded(s, s', h, ok) {
      RespondedElsewhere(s, s', g, h, ok);
    } else {
      var h, t :|
        (h, t) in s.preparing && TaskFound(s, h, t) && (s' == Prepared(s, h, t) || s' == TaskFailed(s, h, t));
      TaskElsewhere(s, g, h, t);
    }
  }

  // Only destroying one of its messages moves a stranded album.
  lemma StrandedStays(s: State, s': State, g: Group)
    requires Inv(s) && Next(s, s') && Stranded(s, g)
    ensures Same(s, s', g) <==> !Touches(s, s', g)
  {
    assert g in s.albums;
    hide Inv, Added, Responded, Prepared, TaskFailed, Uploaded, Destroyed, TaskFound, HasMsg, Stranded, Same;
    if m :| HasMsg(s.albums[g].items, m) && Destroys(s, s', m) {
      var e, p :| s' == Destroyed(s, m, e, p);
      TouchReleases(s, m, g, e, p);
    } else if m :| Destroys(s, s', m) {
      var e, p :| s' == Destroyed(s, m, e, p);
      DestroyElsewhere(s, m, g, e, p);
    } else if m :| Uploads(s, s', m) {
      UploadElsewhere(s, s', m, g);
    } else {
      OthersElsewhere(s, s', g);
    }
  }

  lemma SameIsStranded(s: State, s': State, g: Group)
    requires Stranded(s, g) && Same(s, s', g)
    ensures Stranded(s', g)
  {
  }

  lemma StrandedIsUnsent(s: State, g: Group)
    requires Inv(s) && Stranded(s, g)
    ensures g in s.albums && Count(s.log, g) == 0
  {
    assert AlbumOk(s, g, s.albums[g], false);
  }

  ghost predicate TouchedAt(run: seq<State>, k: nat, g: Group)
    requires k + 1 < |run|
  {
    Touches(run[k], run[k + 1], g)
  }

  // So in every run a stranded album stays as it is, unsent, for as long as none of its messages is destroyed.
  lemma {:induction false} StrandedUntilDestroyed(run: seq<State>, m: nat, n: nat, g: Group)
    requires IsRun(run) && m <= n < |run| && Stranded(run[m], g)
    requires forall k | m <= k < n :: !TouchedAt(run, k, g)
    ensures Stranded(run[n], g) && run[n].albums[g] == run[m].albums[g] && Count(run[n].log, g) == 0
    decreases n - m
  {
    hide Inv, Next, Touches, Stranded;
    if m < n {
      StrandedUntilDestroyed(run, m, n - 1, g);
      RunKeeps(run, n - 1);
      assert !TouchedAt(run, n - 1, g);
      StrandedStays(run[n - 1], run[n], g);
      SameIsStranded(run[n - 1], run[n], g);
    }
    RunKeeps(run, n);
    StrandedIsUnsent(run[n], g);
  }

  ghost predicate Reachable(s: State) { exists run :: IsRun(run) && run[|run| - 1] == s }

  lemma Extended(s: State, s': State)
    requires Reachable(s) && Next(s, s')
    ensures Reachable(s')
  {
    hide Next;
    var run :| IsRun(run) && run[|run| - 1] == s;
    assert IsRun(run + [s']) && (run + [s'])[|run|] == s';
  }

  lemma TasksExtend(s: State, g: Group, t: Task)
    requires Reachable(s) && (g, t) in s.preparing && TaskFound(s, g, t)
    ensures Reachable(Prepared(s, g, t)) && Reachable(TaskFailed(s, g, t))
  {
    hide Prepared, TaskFailed, TaskFound;
    Extended(s, Prepared(s, g, t));
    Extended(s, TaskFailed(s, g, t));
  }

  lemma UploadExtends(s: State, m: MsgId)
    requires Reachable(s) && m in s.uploads && m in s.messages && MayFill(s, m)
    ensures Reachable(Uploaded(s, m, false, false))
  {
    hide Uploaded, MayFill;
    Extended(s, Uploaded(s, m, false, false)) by { assert Uploads(s, Uploaded(s, m, false, false), m); }
  }

  // Two files, of which the first has no message, no media yet, or both.
  function TwoFiles(g: Group, t: Task, u: Task, first: Item): map<Group, Album> {
    map[g := Album([first, Item(u, 0, false)], false)]
  }

  lemma BothAdded(g: Group, t: Task, u: Task)
    requires t != u
    ensures Reachable(
              State(TwoFiles(g, t, u, Item(t, 0, false)), map[], 1, {g}, {(g, t), (g, u)}, {}, map[], {}, []))
  {
    var s0 := State(map[], map[], 1, {}, {}, {}, map[], {}, []);
    var s1 := State(TwoFiles(g, t, u, Item(t, 0, false)), map[], 1, {g}, {(g, t), (g, u)}, {}, map[], {}, []);
    assert Unprepared([t, u]) == [Item(t, 0, false), Item(u, 0, false)];
    assert (set v | v in [t, u] :: (g, v)) == {(g, t), (g, u)};
    assert Added(s0, s1, g, [t, u]);
    hide Added;
    assert IsRun([s0]) && [s0][0] == s0;
    Extended(s0, s1);
  }

  lemma FirstPrepared(g: Group, t: Task, u: Task)
    requires t != u
    ensures var s := State(TwoFiles(g, t, u, Item(t, 0, false)), map[], 1, {g}, {(g, t), (g, u)}, {}, map[], {}, []);
      TaskFound(s, g, t) && Prepared(s, g, t)
        == State(TwoFiles(g, t, u, Item(t, 1, false)), map[1 := Message(g, true)], 2, {g}, {(g, u)}, {1}, map[], {}, [])
  {
    var items := [Item(t, 0, false), Item(u, 0, false)];
    assert FindTask(items, t) == 0;
    assert items[0 := Item(t, 1, false)] == [Item(t, 1, false), Item(u, 0, false)];
  }

  lemma FirstUploaded(g: Group, t: Task, u: Task)
    ensures var s :=
        State(TwoFiles(g, t, u, Item(t, 1, false)), map[1 := Message(g, true)], 2, {g}, {(g, u)}, {1}, map[], {}, []);
      MayFill(s, 1) && Uploaded(s, 1, false, false)
        == s.(albums := TwoFiles(g, t, u, Item(t, 1, true)), uploads := {})
  {
    var items := [Item(t, 1, false), Item(u, 0, false)];
    assert FindMsg(items, 1) == 0;
    var filled := [Item(t, 1, true), Item(u, 0, false)];
    assert items[0 := Item(t, 1, true)] == filled;
    assert filled[1] in filled && !Complete(filled);
  }

  lemma SecondFailed(s: State, g: Group, t: Task, u: Task)
    requires t != u && s.albums == TwoFiles(g, t, u, Item(t, 1, true)) && s.preparing == {(g, u)}
    ensures TaskFound(s, g, u)
    ensures var s' := TaskFailed(s, g, u);
      s'.albums == map[g := Album([Item(t, 1, true)], false)] && s'.preparing == {}
      && s' == s.(albums := s'.albums, preparing := {}, broken := s'.broken)
  {
    var items := [Item(t, 1, true), Item(u, 0, false)];
    assert FindTask(items[1..], u) == 0;
    assert FindTask(items, u) == 1;
    assert Without(items, 1) == [Item(t, 1, true)];
  }

  // It happens: of two files the first is uploaded, then the second fails to be prepared.
  lemma StrandedIsReached(g: Group, t: Task, u: Task)
    requires t != u
    ensures exists s ::
              Reachable(s) && Stranded(s, g) && s.albums == map[g := Album([Item(t, 1, true)], false)]
              && s.preparing == {} && s.uploads == {} && s.waiting == map[] && s.log == []
  {
    var s1 := State(TwoFiles(g, t, u, Item(t, 0, false)), map[], 1, {g}, {(g, t), (g, u)}, {}, map[], {}, []);
    BothAdded(g, t, u);
    FirstPrepared(g, t, u);
    hide Reachable;
    TasksExtend(s1, g, t);
    var s2 := Prepared(s1, g, t);
    FirstUploaded(g, t, u);
    hide Prepared;
    UploadExtends(s2, 1);
    var s3 := Uploaded(s2, 1, false, false);
    hide Uploaded;
    SecondFailed(s3, g, t, u);
    TasksExtend(s3, g, u);
  }
}
