/**
 Who is online in which conversation (src/chat/gateways/chat.gateway.ts).

 The gateway keeps a nested index, conversation to actor key to socket ids, beside what each socket itself has joined.
 The index is derived data: `Agrees` says it equals what the sockets say, and that nothing empty is left in it.
 */
module Presence {
  import opened Text

  datatype ActorType = Human | Guest

  datatype SocketData = SocketData(actorId: string, actorType: ActorType, isAdmin: bool, conversations: set<string>)

  type Index = map<string, map<string, set<string>>>

  // ---- actor keys ----

  function TypeName(t: ActorType): string {
    match t
    case Human => "HUMAN"
    case Guest => "GUEST"
  }

  /** `actorKey`. */
  function Key(t: ActorType, id: string): string {
    TypeName(t) + ":" + id
  }

  function KeyOf(d: SocketData): string {
    Key(d.actorType, d.actorId)
  }

  /** The first two parts of `key.split(':')`. */
  function SplitKey(key: string): (string, string) {
    (UpTo(key, ':'), if ':' in key then UpTo(After(key, ':'), ':') else "")
  }

  /** A key is taken apart into the type and id it was made of exactly when the id holds no colon. */
  lemma KeyRoundTrip(t: ActorType, id: string)
    ensures SplitKey(Key(t, id)) == (if t == Human then "HUMAN" else "GUEST", id) <==> ':' !in id
  {
    UpToOf(TypeName(t), ':', id);
    if ':' !in id { UpToWhole(id, ':'); }
  }

  lemma KeysDistinct(t: ActorType, id: string, t': ActorType, id': string)
    requires Key(t, id) == Key(t', id')
    ensures t == t' && id == id'
  {
    var k := Key(t, id);
    assert k[0] == TypeName(t)[0] && k[0] == TypeName(t')[0];
    assert k[6..] == id && Key(t', id')[6..] == id';
  }

  // ---- the index ----

  /**
   What the sockets are: their data, which of them are connected, and the `ghosts`, the pairs of conversation and socket
   whose join finished after the socket had disconnected.
   */
  datatype Truth = Truth(sockets: map<string, SocketData>, connected: set<string>, ghosts: set<(string, string)>)

  /** Socket `s` is in conversation `c`, or is a ghost in it. */
  predicate Counts(w: Truth, c: string, s: string) {
    s in w.sockets && ((s in w.connected && c in w.sockets[s].conversations) || (c, s) in w.ghosts)
  }

  /** Socket `s` makes the actor `key` present in conversation `c`. */
  predicate On(w: Truth, c: string, key: string, s: string) {
    Counts(w, c, s) && KeyOf(w.sockets[s]) == key
  }

  predicate Under(index: Index, c: string, key: string, s: string) {
    c in index && key in index[c] && s in index[c][key]
  }

  predicate NothingEmpty(index: Index) {
    forall c :: c in index ==> index[c] != map[] && forall k :: k in index[c] ==> index[c][k] != {}
  }

  ghost predicate Agrees(index: Index, w: Truth) {
    && NothingEmpty(index)
    && forall c, key, s :: Under(index, c, key, s) <==> On(w, c, key, s)
  }

  function SocketsUnder(index: Index, c: string, key: string): set<string> {
    if c in index && key in index[c] then index[c][key] else {}
  }

  function RoomOf(index: Index, c: string): map<string, set<string>> {
    if c in index then index[c] else map[]
  }

  /** `trackPresence` for a socket with the given key. */
  function Tracked(index: Index, c: string, key: string, s: string): Index {
    index[c := RoomOf(index, c)[key := SocketsUnder(index, c, key) + {s}]]
  }

  /** A room without socket `s` under `key`, and without the key if it was the last. */
  function RoomWithout(room: map<string, set<string>>, key: string, s: string): map<string, set<string>> {
    if key !in room then room
    else if room[key] - {s} == {} then room - {key}
    else room[key := room[key] - {s}]
  }

  /** `untrackPresence`. */
  function Untracked(index: Index, c: string, key: string, s: string): Index {
    if c !in index then index
    else
      var room := RoomWithout(index[c], key, s);
      if room == map[] then index - {c} else index[c := room]
  }

  lemma TrackingAdds(index: Index, c: string, key: string, s: string)
    requires NothingEmpty(index)
    ensures NothingEmpty(Tracked(index, c, key, s))
    ensures forall d, k, x :: Under(Tracked(index, c, key, s), d, k, x)
                              <==> Under(index, d, k, x) || (d == c && k == key && x == s)
  {
    assert s in SocketsUnder(Tracked(index, c, key, s), c, key);
  }

  lemma RoomLoses(room: map<string, set<string>>, key: string, s: string)
    requires forall k :: k in room ==> room[k] != {}
    ensures var r := RoomWithout(room, key, s);
            && (forall k :: k in r ==> r[k] != {})
            && (forall k, x :: k in r && x in r[k] <==> k in room && x in room[k] && !(k == key && x == s))
  {
    var r := RoomWithout(room, key, s);
    forall k, x | k in room && x in room[k] && !(k == key && x == s)
      ensures k in r && x in r[k]
    {
      if k == key { assert x in room[key] - {s}; }
    }
  }

  lemma UntrackingRemoves(index: Index, c: string, key: string, s: string)
    requires NothingEmpty(index)
    ensures NothingEmpty(Untracked(index, c, key, s))
    ensures forall d, k, x :: Under(Untracked(index, c, key, s), d, k, x)
                              <==> Under(index, d, k, x) && !(d == c && k == key && x == s)
  {
    if c in index {
      RoomLoses(index[c], key, s);
    }
  }

  /** Every key of the index is the key of an actor whose id holds no colon. */
  ghost predicate WellKeyed(index: Index) {
    forall c, k :: c in index && k in index[c] ==> exists t, id :: k == Key(t, id) && ':' !in id
  }

  ghost predicate PlainIds(sockets: map<string, SocketData>) {
    forall s :: s in sockets ==> ':' !in sockets[s].actorId
  }

  lemma SplitsApart(index: Index, c: string, k: string, l: string)
    requires WellKeyed(index) && c in index && k in index[c] && l in index[c] && SplitKey(k) == SplitKey(l)
    ensures k == l
  {
    var t, id :| k == Key(t, id) && ':' !in id;
    var u, jd :| l == Key(u, jd) && ':' !in jd;
    KeyRoundTrip(t, id);
    KeyRoundTrip(u, jd);
  }

  lemma StaysWellKeyed(index: Index, c: string, d: SocketData, s: string)
    requires WellKeyed(index) && ':' !in d.actorId
    ensures WellKeyed(Tracked(index, c, KeyOf(d), s)) && WellKeyed(Untracked(index, c, KeyOf(d), s))
  {
  }

  /** The truth after socket `s` has joined or left conversation `c`. */
  function InConversations(w: Truth, s: string, conversations: set<string>): Truth
    requires s in w.sockets
  {
    w.(sockets := w.sockets[s := w.sockets[s].(conversations := conversations)])
  }

  /** After a join the index is right if and only if the socket is connected or was a ghost there; else it becomes one. */
  lemma JoiningAgrees(index: Index, w: Truth, c: string, s: string)
    requires Agrees(index, w) && s in w.sockets
    ensures var d := w.sockets[s];
            var tracked, v := Tracked(index, c, KeyOf(d), s), InConversations(w, s, d.conversations + {c});
            && (Agrees(tracked, v) <==> s in w.connected || (c, s) in w.ghosts)
            && (s !in w.connected ==> Agrees(tracked, v.(ghosts := w.ghosts + {(c, s)})))
  {
    var d := w.sockets[s];
    TrackingAdds(index, c, KeyOf(d), s);
    assert Under(Tracked(index, c, KeyOf(d), s), c, KeyOf(d), s);
  }

  lemma LeavingAgrees(index: Index, w: Truth, c: string, s: string)
    requires Agrees(index, w) && s in w.sockets
    ensures var d := w.sockets[s];
            Agrees(Untracked(index, c, KeyOf(d), s),
                   InConversations(w, s, d.conversations - {c}).(ghosts := w.ghosts - {(c, s)}))
  {
    UntrackingRemoves(index, c, KeyOf(w.sockets[s]), s);
  }

  // ---- the gateway ----

  /** A `presence:update` event: the actors online in a conversation, as type name and id. */
  datatype Broadcast = Broadcast(conversationId: string, online: seq<(string, string)>)

  /** The event lists every actor with a socket or a ghost in the conversation, each once. */
  ghost predicate Truthful(b: Broadcast, w: Truth) {
    && (forall i, j :: 0 <= i < j < |b.online| ==> b.online[i] != b.online[j])
    && (forall t, id :: (t, id) in b.online <==>
          exists s :: Counts(w, b.conversationId, s)
                      && t == TypeName(w.sockets[s].actorType) && id == w.sockets[s].actorId)
  }

  /** The event lists the keys of a room, taken apart, each once. */
  ghost predicate Lists(b: Broadcast, index: Index) {
    && (forall i, j :: 0 <= i < j < |b.online| ==> b.online[i] != b.online[j])
    && (forall t, id :: (t, id) in b.online <==>
          exists k :: k in RoomOf(index, b.conversationId) && SplitKey(k) == (t, id))
  }

  /** What an index that agrees about one conversation lists of it is the truth. */
  lemma ListedIsTrue(b: Broadcast, index: Index, w: Truth)
    requires Lists(b, index) && NothingEmpty(index) && PlainIds(w.sockets)
    requires forall k, s :: Under(index, b.conversationId, k, s) <==> On(w, b.conversationId, k, s)
    ensures Truthful(b, w)
  {
    var c := b.conversationId;
    forall s | Counts(w, c, s)
      ensures (TypeName(w.sockets[s].actorType), w.sockets[s].actorId) in b.online
    {
      var k := KeyOf(w.sockets[s]);
      assert On(w, c, k, s);
      assert Under(index, c, k, s);
      KeyRoundTrip(w.sockets[s].actorType, w.sockets[s].actorId);
      assert k in RoomOf(index, c);
    }
    forall t, id | (t, id) in b.online
      ensures exists s :: Counts(w, c, s) && t == TypeName(w.sockets[s].actorType) && id == w.sockets[s].actorId
    {
      var k :| k in RoomOf(index, c) && SplitKey(k) == (t, id);
      var s :| s in index[c][k];
      assert Under(index, c, k, s);
      assert Counts(w, c, s);
      KeyRoundTrip(w.sockets[s].actorType, w.sockets[s].actorId);
    }
  }

  lemma AgreeingIsTrue(b: Broadcast, index: Index, w: Truth)
    requires Lists(b, index) && Agrees(index, w) && PlainIds(w.sockets)
    ensures Truthful(b, w)
  {
    hide Lists, Truthful;
    ListedIsTrue(b, index, w);
  }

  /** Without ghosts the actors listed are exactly those with a connected socket in the conversation. */
  lemma TruthWithoutGhosts(b: Broadcast, w: Truth)
    requires Truthful(b, w) && forall s :: (b.conversationId, s) !in w.ghosts
    ensures forall t, id :: (t, id) in b.online <==>
              exists s :: s in w.connected && s in w.sockets && b.conversationId in w.sockets[s].conversations
                          && t == TypeName(w.sockets[s].actorType) && id == w.sockets[s].actorId
  {
  }

  /** Ghosts are sockets that are known and gone. */
  ghost predicate GhostsGone(w: Truth) {
    forall c, s :: (c, s) in w.ghosts ==> s in w.sockets && s !in w.connected
  }

  /** The truth after a join that finishes. */
  function AfterJoining(w: Truth, c: string, s: string): Truth
    requires s in w.sockets
  {
    InConversations(w, s, w.sockets[s].conversations + {c})
    .(ghosts := if s in w.connected then w.ghosts else w.ghosts + {(c, s)})
  }

  lemma AfterJoiningAgrees(index: Index, w: Truth, c: string, s: string)
    requires Agrees(index, w) && GhostsGone(w) && PlainIds(w.sockets) && s in w.sockets
    ensures Agrees(Tracked(index, c, KeyOf(w.sockets[s]), s), AfterJoining(w, c, s))
    ensures GhostsGone(AfterJoining(w, c, s)) && PlainIds(AfterJoining(w, c, s).sockets)
  {
    JoiningAgrees(index, w, c, s);
    hide Agrees, Tracked;
    assert w.(ghosts := w.ghosts) == w;
  }

  /** The truth after a leave. */
  function AfterLeaving(w: Truth, c: string, s: string): Truth {
    if s !in w.sockets then w
    else InConversations(w, s, w.sockets[s].conversations - {c}).(ghosts := w.ghosts - {(c, s)})
  }

  lemma AfterLeavingAgrees(index: Index, w: Truth, c: string, s: string)
    requires Agrees(index, w) && GhostsGone(w) && PlainIds(w.sockets)
    ensures Agrees(if s in w.sockets then Untracked(index, c, KeyOf(w.sockets[s]), s) else index, AfterLeaving(w, c, s))
    ensures GhostsGone(AfterLeaving(w, c, s)) && PlainIds(AfterLeaving(w, c, s).sockets)
    ensures AfterLeaving(w, c, s).ghosts == w.ghosts - {(c, s)}
  {
    if s in w.sockets { LeavingAgrees(index, w, c, s); }
    hide Agrees, Untracked;
  }

  /** `connected` is not the gateway's own state but what the sockets are; `ghosts` is history. */
  class ChatGateway {
    var presence: Index
    var sockets: map<string, SocketData>
    var events: seq<Broadcast>
    ghost var connected: set<string>
    ghost var ghosts: set<(string, string)>

    ghost function View(): Truth
      reads this
    {
      Truth(sockets, connected, ghosts)
    }

    /** The index is the truth of the sockets and the ghosts. Actor ids are UUIDs, so they hold no colon. */
    ghost predicate Valid()
      reads this
    {
      Agrees(presence, View()) && GhostsGone(View()) && WellKeyed(presence) && PlainIds(sockets)
    }

    constructor ()
      ensures Valid() && connected == {} && ghosts == {} && sockets == map[] && events == []
    {
      presence, sockets, events, connected, ghosts := map[], map[], [], {}, {};
    }

    /** A new socket, authenticated as someone; ids of sockets are not used again. */
    method Authenticate(s: string, actorId: string, actorType: ActorType, isAdmin: bool)
      requires Valid() && s !in sockets && s !in connected && ':' !in actorId
      modifies this`sockets, this`connected
      ensures Valid() && connected == old(connected) + {s}
      ensures sockets == old(sockets)[s := SocketData(actorId, actorType, isAdmin, {})]
    {
      connected := connected + {s};
      sockets := sockets[s := SocketData(actorId, actorType, isAdmin, {})];
      assert forall c, k, x :: Under(presence, c, k, x) <==> On(View(), c, k, x);
    }

    method TrackPresence(c: string, s: string)
      requires s in sockets
      modifies this`presence
      ensures presence == Tracked(old(presence), c, KeyOf(sockets[s]), s)
    {
      var key := KeyOf(sockets[s]);
      if c !in presence {
        presence := presence[c := map[]];
      }
      if key !in presence[c] {
        presence := presence[c := presence[c][key := {}]];
      }
      presence := presence[c := presence[c][key := presence[c][key] + {s}]];
      assert presence[c] == RoomOf(old(presence), c)[key := SocketsUnder(old(presence), c, key) + {s}];
    }

    method UntrackPresence(c: string, s: string)
      requires s in sockets && NothingEmpty(presence)
      modifies this`presence
      ensures presence == Untracked(old(presence), c, KeyOf(sockets[s]), s)
    {
      var key := KeyOf(sockets[s]);
      if c !in presence { return; }
      var room := presence[c];
      if key in room {
        room := room[key := room[key] - {s}];
        if room[key] == {} {
          room := room - {key};
        }
      }
      assert room == RoomWithout(presence[c], key, s);
      presence := presence[c := room];
      if room == map[] {
        presence := presence - {c};
      }
    }

    /** `Array.from`, in some order. */
    method ArrayFrom(keys: set<string>) returns (a: seq<string>)
      ensures forall k :: k in a <==> k in keys
      ensures forall i, j :: 0 <= i < j < |a| ==> a[i] != a[j]
    {
      a := [];
      var left := keys;
      while left != {}
        invariant left <= keys && forall k :: k in a <==> k in keys - left
        invariant forall i, j :: 0 <= i < j < |a| ==> a[i] != a[j]
        decreases |left|
      {
        var key :| key in left;
        left := left - {key};
        ghost var before := a;
        a := a + [key];
        assert a[|before|] == key && key !in before;
        assert forall i :: 0 <= i < |before| ==> a[i] == before[i] && before[i] in before;
        assert forall k :: k in a <==> k in before || k == key;
      }
    }

    method BroadcastPresence(c: string)
      requires WellKeyed(presence)
      modifies this`events
      ensures |events| == |old(events)| + 1 && events[..|old(events)|] == old(events)
      ensures var b := events[|old(events)|]; b.conversationId == c && Lists(b, presence)
    {
      hide SplitKey, WellKeyed;
      var keys := ArrayFrom(RoomOf(presence, c).Keys);
      var online := seq(|keys|, i requires 0 <= i < |keys| => SplitKey(keys[i]));
      forall i, j | 0 <= i < j < |online|
        ensures online[i] != online[j]
      {
        if online[i] == online[j] {
          assert keys[i] in keys && keys[j] in keys;
          SplitsApart(presence, c, keys[i], keys[j]);
        }
      }
      forall k | k in RoomOf(presence, c)
        ensures SplitKey(k) in online
      {
        var i :| 0 <= i < |keys| && keys[i] == k;
        assert online[i] == SplitKey(k);
      }
      events := events + [Broadcast(c, online)];
    }

    /**
     `join_conversation`, after its awaits: `allowed` is the answer about membership. The socket may have gone in the
     meantime, and exactly then it becomes a ghost.
     */
    method OnJoinConversation(s: string, c: string, allowed: bool) returns (joined: bool)
      requires Valid()
      modifies this`presence, this`sockets, this`events, this`ghosts
      ensures Valid() && (joined <==> s in old(sockets) && (old(sockets)[s].isAdmin || allowed))
      ensures !joined ==> presence == old(presence) && sockets == old(sockets) && events == old(events)
      ensures ghosts == if joined && s !in connected then old(ghosts) + {(c, s)} else old(ghosts)
      ensures joined ==>
                var d := old(sockets)[s];
                && sockets == old(sockets)[s := d.(conversations := d.conversations + {c})]
                && presence == Tracked(old(presence), c, KeyOf(d), s)
                && |events| == |old(events)| + 1 && events[|old(events)|].conversationId == c
                && Truthful(events[|old(events)|], View())
    {
      if s !in sockets { return false; }
      var d := sockets[s];
      if !d.isAdmin && !allowed { return false; }
      StaysWellKeyed(presence, c, d, s);
      AfterJoiningAgrees(presence, View(), c, s);
      hide Agrees, GhostsGone, PlainIds, Truthful, Lists, WellKeyed, Tracked;
      sockets := sockets[s := d.(conversations := d.conversations + {c})];
      if s !in connected { ghosts := ghosts + {(c, s)}; }
      assert View() == AfterJoining(old(View()), c, s);
      TrackPresence(c, s);
      BroadcastPresence(c);
      AgreeingIsTrue(events[|events| - 1], presence, View());
      return true;
    }

    /** A socket that has gone sends no such message; if it did, its ghost would go. */
    method OnLeaveConversation(s: string, c: string)
      requires Valid()
      modifies this`presence, this`sockets, this`events, this`ghosts
      ensures Valid() && ghosts == old(ghosts) - {(c, s)}
      ensures sockets == if s in old(sockets)
                         then old(sockets)[s := old(sockets)[s].(conversations := old(sockets)[s].conversations - {c})]
                         else old(sockets)
      ensures |events| == |old(events)| + 1 && events[|old(events)|].conversationId == c
      ensures Truthful(events[|old(events)|], View())
    {
      AfterLeavingAgrees(presence, View(), c, s);
      if s in sockets { StaysWellKeyed(presence, c, sockets[s], s); }
      hide GhostsGone, PlainIds, Truthful, Lists, WellKeyed, Untracked, On, Counts;
      if s in sockets {
        UntrackPresence(c, s);
        sockets := sockets[s := sockets[s].(conversations := sockets[s].conversations - {c})];
      }
      ghosts := ghosts - {(c, s)};
      assert View() == AfterLeaving(old(View()), c, s);
      BroadcastPresence(c);
      AgreeingIsTrue(events[|events| - 1], presence, View());
    }

    /** The socket is gone: it is taken out of each of its conversations, which are told one by one. */
    method HandleDisconnect(s: string)
      requires Valid() && s in connected
      modifies this`presence, this`events, this`connected
      ensures Valid() && connected == old(connected) - {s}
      ensures forall c, k :: !Under(presence, c, k, s)
      ensures |old(events)| <= |events| && events[..|old(events)|] == old(events)
      ensures if s in sockets then Told(events[|old(events)|..], sockets[s].conversations, View())
              else events == old(events)
    {
      hide Truthful, WellKeyed, Agrees, NothingEmpty, On, Counts, Under, Told, PlainIds;
      if s in sockets {
        ghost var told := LeaveAll(s);
        AllLeft(presence, View(), s);
        assert events[|old(events)|..] == told;
      } else {
        NeverHere(presence, View(), s);
      }
      connected := connected - {s};
    }

    /** The loop of `handleDisconnect`. */
    method LeaveAll(s: string) returns (ghost told: seq<Broadcast>)
      requires Valid() && s in sockets && s in connected
      modifies this`presence, this`events
      ensures Agrees(presence, InConversations(View(), s, {})) && WellKeyed(presence)
      ensures events == old(events) + told && Told(told, sockets[s].conversations, Without(View(), s))
    {
      hide Truthful, WellKeyed, Agrees, NothingEmpty, On, Counts, Under, Told, PlainIds;
      ghost var all := sockets[s].conversations;
      var remaining := sockets[s].conversations;
      told := [];
      ToldNone(Without(View(), s));
      assert InConversations(View(), s, remaining) == View() by {
        assert sockets[s := sockets[s].(conversations := remaining)] == sockets;
      }
      assert all - remaining == {};
      while remaining != {}
        invariant remaining <= all
        invariant Agrees(presence, InConversations(View(), s, remaining))
        invariant WellKeyed(presence)
        invariant events == old(events) + told && Told(told, all - remaining, Without(View(), s))
        decreases |remaining|
      {
        var c :| c in remaining;
        LeaveOne(c, s, remaining);
        ghost var b := events[|events| - 1];
        ToldMore(told, all - remaining, Without(View(), s), b);
        told := told + [b];
        assert all - (remaining - {c}) == (all - remaining) + {c};
        remaining := remaining - {c};
      }
      assert all - {} == all;
    }

    /** One turn of the loop of `handleDisconnect`. */
    method LeaveOne(c: string, s: string, ghost remaining: set<string>)
      requires s in sockets && s in connected && c in remaining && WellKeyed(presence)
      requires PlainIds(sockets) && GhostsGone(View())
      requires Agrees(presence, InConversations(View(), s, remaining))
      modifies this`presence, this`events
      ensures Agrees(presence, InConversations(View(), s, remaining - {c}))
      ensures WellKeyed(presence)
      ensures |events| == |old(events)| + 1 && events[..|old(events)|] == old(events)
      ensures events[|old(events)|].conversationId == c
      ensures Truthful(events[|old(events)|], Without(View(), s))
    {
      StaysWellKeyed(presence, c, sockets[s], s);
      hide On, Counts, Truthful, Lists, WellKeyed, Tracked, Untracked;
      ghost var w := InConversations(View(), s, remaining);
      LeavingAgrees(presence, w, c, s);
      assert ghosts - {(c, s)} == ghosts;
      assert w.sockets[s := w.sockets[s].(conversations := remaining - {c})]
             == sockets[s := sockets[s].(conversations := remaining - {c})];
      UntrackPresence(c, s);
      GoneFrom(presence, View(), c, s, remaining - {c});
      BroadcastPresence(c);
      ListedIsTrue(events[|events| - 1], presence, Without(View(), s));
    }
  }

  function Without(w: Truth, s: string): Truth {
    w.(connected := w.connected - {s})
  }

  /** A socket that disconnects while it waits to join: the rest of the join leaves it in the index. */
  method GhostEntry(s: string, c: string, actorId: string) returns (gateway: ChatGateway)
    requires ':' !in actorId
    ensures fresh(gateway) && gateway.Valid() && s !in gateway.connected && gateway.ghosts == {(c, s)}
    ensures Under(gateway.presence, c, Key(Human, actorId), s)
  {
    gateway := new ChatGateway();
    gateway.Authenticate(s, actorId, Human, false);
    gateway.HandleDisconnect(s);
    var joined := gateway.OnJoinConversation(s, c, true);
  }

  /** The events are about the conversations `cs`, and true. */
  ghost predicate Told(events: seq<Broadcast>, cs: set<string>, w: Truth) {
    && (forall i :: 0 <= i < |events| ==> events[i].conversationId in cs && Truthful(events[i], w))
    && (forall c :: c in cs ==> exists i :: 0 <= i < |events| && events[i].conversationId == c)
  }

  lemma ToldNone(w: Truth)
    ensures Told([], {}, w)
  {
  }

  lemma ToldMore(events: seq<Broadcast>, cs: set<string>, w: Truth, b: Broadcast)
    requires Told(events, cs, w) && Truthful(b, w)
    ensures Told(events + [b], cs + {b.conversationId}, w)
  {
    hide Truthful;
    var longer := events + [b];
    assert longer[|events|] == b && forall i :: 0 <= i < |events| ==> longer[i] == events[i];
  }

  lemma AllLeft(index: Index, w: Truth, s: string)
    requires s in w.sockets && s in w.connected && GhostsGone(w) && Agrees(index, InConversations(w, s, {}))
    ensures Agrees(index, Without(w, s)) && GhostsGone(Without(w, s)) && forall c, k :: !Under(index, c, k, s)
  {
    var v := InConversations(w, s, {});
    forall c, k, x
      ensures Under(index, c, k, x) <==> On(Without(w, s), c, k, x)
    {
      assert Under(index, c, k, x) <==> On(v, c, k, x);
    }
  }

  lemma NeverHere(index: Index, w: Truth, s: string)
    requires s !in w.sockets && Agrees(index, w) && GhostsGone(w)
    ensures Agrees(index, Without(w, s)) && GhostsGone(Without(w, s)) && forall c, k :: !Under(index, c, k, s)
  {
    forall c, k, x
      ensures Under(index, c, k, x) <==> On(Without(w, s), c, k, x) && x != s
    {
      assert Under(index, c, k, x) <==> On(w, c, k, x);
    }
  }

  /** While a socket is being taken out of its conversations: it is out of those it has left. */
  lemma GoneFrom(index: Index, w: Truth, c: string, s: string, remaining: set<string>)
    requires s in w.sockets && s in w.connected && GhostsGone(w) && c !in remaining
    requires Agrees(index, InConversations(w, s, remaining))
    ensures forall k, x :: Under(index, c, k, x) <==> On(Without(w, s), c, k, x)
  {
    var v := InConversations(w, s, remaining);
    forall k, x
      ensures Under(index, c, k, x) <==> On(Without(w, s), c, k, x)
    {
      assert Under(index, c, k, x) <==> On(v, c, k, x);
    }
  }
}
