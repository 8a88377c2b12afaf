/** Load-time sanitisation of persisted conversations (App.tsx:98-139) and
    the encoding written back on save (App.tsx:145-146). The input is the
    value `JSON.parse` produced; reading the key-value store is not modelled. */
module Persist {
  import opened Types

  /** JavaScript truthiness of a parsed value. */
  predicate Truthy(j: Json) {
    match j
    case JNull => false
    case JBool(b) => b
    case JNum(n) => n != 0
    case JStr(s) => s != ""
    case _ => true
  }

  /** A property read: `undefined` (None) unless an object holds the key. */
  function Prop(j: Json, key: string): Option<Json> {
    if j.JObj? && key in j.fields then Some(j.fields[key]) else None
  }

  predicate IsString(v: Option<Json>) {
    v.Some? && v.value.JStr?
  }

  predicate IsNumber(v: Option<Json>) {
    v.Some? && v.value.JNum?
  }

  /** The message filter: a truthy value with string `id` and `role`. */
  predicate KeepsMessage(m: Json) {
    Truthy(m) && IsString(Prop(m, "id")) && IsString(Prop(m, "role"))
  }

  /** `.filter(...)` with that predicate. */
  function FilterMessages(ms: seq<Json>): (r: seq<Json>)
    ensures forall m :: m in r <==> m in ms && KeepsMessage(m)
    ensures |r| <= |ms|
    ensures (forall k :: 0 <= k < |ms| ==> KeepsMessage(ms[k])) ==> r == ms
  {
    if ms == [] then []
    else (if KeepsMessage(ms[0]) then [ms[0]] else []) + FilterMessages(ms[1..])
  }

  /** The filter keeps the original order: filtering a concatenation filters
      each part in turn. */
  lemma {:induction false} FilterKeepsOrder(a: seq<Json>, b: seq<Json>)
    ensures FilterMessages(a + b) == FilterMessages(a) + FilterMessages(b)
    decreases |a|
  {
    if a == [] {
      assert a + b == b;
    } else {
      assert (a + b)[0] == a[0];
      assert (a + b)[1..] == a[1..] + b;
      FilterKeepsOrder(a[1..], b);
    }
  }

  /** `(chat.messages || []).filter(...)`: a falsy or missing value reads as
      the empty array; any other value that is not an array has no `filter`
      function, and calling it throws (None). */
  function SanitiseMessages(v: Option<Json>): (r: Option<seq<Json>>)
    ensures r.None? <==> v.Some? && Truthy(v.value) && !v.value.JArr?
    ensures v.None? || !Truthy(v.value) ==> r == Some([])
    ensures r.Some? ==> forall k :: 0 <= k < |r.value| ==> KeepsMessage(r.value[k])
    ensures v.Some? && v.value.JArr? ==> r == Some(FilterMessages(v.value.items))
  {
    if v.None? || !Truthy(v.value) then Some([])
    else if v.value.JArr? then Some(FilterMessages(v.value.items))
    else None
  }

  /** `{ files: [] }`. */
  const EmptySnapshot: Json := JObj(map["files" := JArr([])])
  const UntitledChat: string := "Untitled Chat"

  /** A non-empty array is kept as it is; anything else becomes one empty snapshot. */
  function SanitiseHistory(v: Option<Json>): (r: seq<Json>)
    ensures |r| >= 1
    ensures v.Some? && v.value.JArr? && v.value.items != [] ==> r == v.value.items
    ensures !(v.Some? && v.value.JArr? && v.value.items != []) ==> r == [EmptySnapshot]
  {
    if v.Some? && v.value.JArr? && |v.value.items| > 0 then v.value.items else [EmptySnapshot]
  }

  /** A number inside the history is kept; any other value becomes 0. */
  function SanitiseIndex(v: Option<Json>, len: nat): (r: int)
    requires len >= 1
    ensures 0 <= r < len
    ensures IsNumber(v) && 0 <= v.value.n < len ==> r == v.value.n
    ensures !(IsNumber(v) && 0 <= v.value.n < len) ==> r == 0
  {
    if IsNumber(v) && 0 <= v.value.n < len then v.value.n else 0
  }

  predicate HasStringId(j: Json) {
    Truthy(j) && IsString(Prop(j, "id"))
  }

  datatype Verdict = Dropped | Kept(chat: StoredChat) | Throws

  /** A sanitised chat: non-empty history, cursor inside it, only messages
      the filter keeps. */
  predicate WellFormed(c: StoredChat) {
    && |c.history| >= 1
    && 0 <= c.historyIndex < |c.history|
    && forall k :: 0 <= k < |c.messages| ==> KeepsMessage(c.messages[k])
  }

  /** The callback of `parsedChats.map(...)` for one element, with `now` for
      `Date.now()`. */
  function SanitiseChat(j: Json, now: int): (r: Verdict)
    ensures r.Dropped? <==> !HasStringId(j)
    ensures r.Throws? <==> HasStringId(j) && SanitiseMessages(Prop(j, "messages")).None?
    ensures r.Kept? ==> WellFormed(r.chat) && r.chat.id == Prop(j, "id").value.s
    ensures r.Kept? ==> r.chat.messages == SanitiseMessages(Prop(j, "messages")).value
    ensures r.Kept? ==> r.chat.name == if IsString(Prop(j, "name")) then Prop(j, "name").value.s else UntitledChat
    ensures r.Kept? ==> r.chat.createdAt == if IsNumber(Prop(j, "createdAt")) then Prop(j, "createdAt").value.n else now
    ensures r.Kept? ==> r.chat.history == SanitiseHistory(Prop(j, "history"))
    ensures r.Kept? ==> r.chat.historyIndex == SanitiseIndex(Prop(j, "historyIndex"), |r.chat.history|)
  {
    if !HasStringId(j) then Dropped
    else
      match SanitiseMessages(Prop(j, "messages"))
      case None => Throws
      case Some(messages) =>
        var history := SanitiseHistory(Prop(j, "history"));
        Kept(StoredChat(
          Prop(j, "id").value.s,
          if IsString(Prop(j, "name")) then Prop(j, "name").value.s else UntitledChat,
          if IsNumber(Prop(j, "createdAt")) then Prop(j, "createdAt").value.n else now,
          history,
          SanitiseIndex(Prop(j, "historyIndex"), |history|),
          messages))
  }

  /** `.map(...).filter(chat => chat !== null)` over the parsed array; None when
      some element throws. */
  function SanitiseChats(items: seq<Json>, now: int): Option<seq<StoredChat>> {
    if items == [] then Some([])
    else
      match SanitiseChat(items[0], now)
      case Throws => None
      case Dropped => SanitiseChats(items[1..], now)
      case Kept(c) =>
        match SanitiseChats(items[1..], now)
        case None => None
        case Some(cs) => Some([c] + cs)
  }

  /** Combines the results for two parts of the array: a throw in either
      part is a throw of the whole. */
  function JoinSanitised(x: Option<seq<StoredChat>>, y: Option<seq<StoredChat>>): Option<seq<StoredChat>> {
    if x.None? || y.None? then None else Some(x.value + y.value)
  }

  /** One element gives its own sanitised chat, nothing when it is dropped,
      and a throw when it throws. */
  lemma SanitiseChatsOne(j: Json, now: int)
    ensures SanitiseChats([j], now) == match SanitiseChat(j, now)
                                       case Throws => None
                                       case Dropped => Some([])
                                       case Kept(c) => Some([c])
  {
    assert [j][1..] == [];
    if SanitiseChat(j, now).Kept? {
      assert [SanitiseChat(j, now).chat] + [] == [SanitiseChat(j, now).chat];
    }
  }

  /** The sanitiser works element by element: the result for a
      concatenation joins the results for its parts, in order. */
  lemma {:induction false} SanitiseChatsConcat(a: seq<Json>, b: seq<Json>, now: int)
    ensures SanitiseChats(a + b, now) == JoinSanitised(SanitiseChats(a, now), SanitiseChats(b, now))
    decreases |a|
  {
    if a == [] {
      assert a + b == b;
      if SanitiseChats(b, now).Some? {
        assert [] + SanitiseChats(b, now).value == SanitiseChats(b, now).value;
      }
    } else {
      assert (a + b)[0] == a[0];
      assert (a + b)[1..] == a[1..] + b;
      SanitiseChatsConcat(a[1..], b, now);
      match SanitiseChat(a[0], now)
      case Throws =>
      case Dropped =>
      case Kept(c) =>
        if SanitiseChats(a[1..], now).Some? && SanitiseChats(b, now).Some? {
          AppendAssoc([c], SanitiseChats(a[1..], now).value, SanitiseChats(b, now).value);
        }
    }
  }

  function Ids(cs: seq<StoredChat>): seq<string> {
    if cs == [] then [] else [cs[0].id] + Ids(cs[1..])
  }

  /** The ids of the elements that have a string id, in order. */
  function StringIds(items: seq<Json>): seq<string> {
    if items == [] then []
    else (if HasStringId(items[0]) then [Prop(items[0], "id").value.s] else []) + StringIds(items[1..])
  }

  predicate SomeChatThrows(items: seq<Json>) {
    exists k :: 0 <= k < |items| && HasStringId(items[k]) && SanitiseMessages(Prop(items[k], "messages")).None?
  }

  /** Sanitising throws exactly when a chat with a string id has a truthy
      non-array `messages`; otherwise it keeps, in order, exactly the elements
      with a string id, each well formed. */
  lemma {:induction false} SanitisedChats(items: seq<Json>, now: int)
    ensures SanitiseChats(items, now).None? <==> SomeChatThrows(items)
    ensures SanitiseChats(items, now).Some? ==>
              var cs := SanitiseChats(items, now).value;
              && Ids(cs) == StringIds(items)
              && forall k :: 0 <= k < |cs| ==> WellFormed(cs[k])
    decreases |items|
  {
    if items != [] {
      SanitisedChats(items[1..], now);
      assert SomeChatThrows(items) <==>
             (HasStringId(items[0]) && SanitiseMessages(Prop(items[0], "messages")).None?)
             || SomeChatThrows(items[1..]) by {
        if SomeChatThrows(items[1..]) {
          var k :| 0 <= k < |items[1..]| && HasStringId(items[1..][k])
                   && SanitiseMessages(Prop(items[1..][k], "messages")).None?;
          assert items[k + 1] == items[1..][k];
        }
        if SomeChatThrows(items) {
          var k :| 0 <= k < |items| && HasStringId(items[k])
                   && SanitiseMessages(Prop(items[k], "messages")).None?;
          if k > 0 {
            assert items[1..][k - 1] == items[k];
          }
        }
      }
      match SanitiseChat(items[0], now)
      case Throws =>
      case Dropped =>
      case Kept(c) =>
        if SanitiseChats(items[1..], now).Some? {
          var cs := SanitiseChats(items[1..], now).value;
          assert ([c] + cs)[1..] == cs;
        }
    }
  }

  /** Some chat in `chats` has the id `id` (`chats.some(c => c.id === id)`). */
  predicate Names(chats: seq<StoredChat>, id: string) {
    exists k :: 0 <= k < |chats| && chats[k].id == id
  }

  /** The saved active id when it is non-empty and names a loaded chat,
      otherwise the first chat's id; none without chats. */
  function ChooseActive(chats: seq<StoredChat>, saved: Option<string>): (r: Option<string>)
    ensures r.None? <==> chats == []
    ensures r.Some? ==> Names(chats, r.value)
    ensures chats != [] && saved.Some? && saved.value != "" && Names(chats, saved.value) ==> r == saved
    ensures chats != [] && !(saved.Some? && saved.value != "" && Names(chats, saved.value)) ==> r == Some(chats[0].id)
  {
    if chats == [] then None
    else if saved.Some? && saved.value != "" && Names(chats, saved.value) then saved
    else Some(chats[0].id)
  }

  /** The stored conversations: absent (or empty), not valid JSON, or parsed. */
  datatype SavedChats = NotSaved | Unparseable | Parsed(value: Json)

  datatype LoadResult = Loaded(chats: seq<StoredChat>, activeChatId: Option<string>) | LoadThrew

  /** The body of the load effect up to `LOAD_STATE`. */
  function Load(saved: SavedChats, savedActiveId: Option<string>, now: int): (r: LoadResult)
    ensures r.LoadThrew? <==> saved.Unparseable? || (saved.Parsed? && saved.value.JArr? && SanitiseChats(saved.value.items, now).None?)
    ensures r.Loaded? ==> r.activeChatId == ChooseActive(r.chats, savedActiveId)
    ensures r.Loaded? && !(saved.Parsed? && saved.value.JArr?) ==> r.chats == []
    ensures saved.Parsed? && saved.value.JArr? && SanitiseChats(saved.value.items, now).Some? ==>
              r == Loaded(SanitiseChats(saved.value.items, now).value,
                          ChooseActive(SanitiseChats(saved.value.items, now).value, savedActiveId))
  {
    match saved
    case NotSaved => Loaded([], None)
    case Unparseable => LoadThrew
    case Parsed(v) =>
      if v.JArr? then
        match SanitiseChats(v.items, now)
        case None => LoadThrew
        case Some(cs) => Loaded(cs, ChooseActive(cs, savedActiveId))
      else Loaded([], None)
  }

  /** The actions the load effect dispatches. `tailwindThrew` and
      `searchThrew` say whether `JSON.parse` of the saved `ai_useTailwind` and
      `ai_useGoogleSearch` values, read after `LOAD_STATE`, threw; either one
      lands in the effect's `catch`. */
  function LoadActions(saved: SavedChats, savedActiveId: Option<string>, now: int,
                       tailwindThrew: bool, searchThrew: bool): (r: seq<Action>)
    ensures 1 <= |r| <= 2
    ensures r[0] == CreateChat <==> Load(saved, savedActiveId, now).LoadThrew?
    ensures |r| == 2 <==> Load(saved, savedActiveId, now).Loaded? && (tailwindThrew || searchThrew)
    ensures var l := Load(saved, savedActiveId, now);
            r[0] == if l.LoadThrew? then CreateChat else LoadState(l.chats, l.activeChatId)
    ensures |r| == 2 ==> r[1] == CreateChat
  {
    match Load(saved, savedActiveId, now)
    case LoadThrew => [CreateChat]
    case Loaded(cs, active) => [LoadState(cs, active)] + (if tailwindThrew || searchThrew then [CreateChat] else [])
  }

  /** Whatever was stored, the effect dispatches either `CREATE_CHAT` alone or
      a `LOAD_STATE` whose chats are well formed and whose active id names
      one of them (none only when no chat survived). */
  lemma LoadIsConsistent(saved: SavedChats, savedActiveId: Option<string>, now: int, tailwindThrew: bool, searchThrew: bool)
    ensures var acts := LoadActions(saved, savedActiveId, now, tailwindThrew, searchThrew);
            && 1 <= |acts| <= 2
            && (acts[0].CreateChat? || acts[0].LoadState?)
            && (acts[0].CreateChat? ==> |acts| == 1)
            && (|acts| == 2 <==> acts[0].LoadState? && (tailwindThrew || searchThrew))
            && (|acts| == 2 ==> acts[1] == CreateChat)
            && (acts[0].LoadState? ==>
                  var cs := acts[0].chats;
                  && (forall k :: 0 <= k < |cs| ==> WellFormed(cs[k]))
                  && (acts[0].activeChatId.None? <==> cs == [])
                  && (acts[0].activeChatId.Some? ==> Names(cs, acts[0].activeChatId.value)))
  {
    if saved.Parsed? && saved.value.JArr? {
      SanitisedChats(saved.value.items, now);
    }
  }

  /** `JSON.stringify` of a stored chat, as the save effect writes it. */
  function EncodeChat(c: StoredChat): (r: Json)
    ensures r.JObj? && r.fields.Keys == {"id", "name", "createdAt", "history", "historyIndex", "messages"}
    ensures Prop(r, "id") == Some(JStr(c.id)) && Prop(r, "historyIndex") == Some(JNum(c.historyIndex))
    ensures Prop(r, "history") == Some(JArr(c.history)) && Prop(r, "messages") == Some(JArr(c.messages))
  {
    JObj(map[
      "id" := JStr(c.id),
      "name" := JStr(c.name),
      "createdAt" := JNum(c.createdAt),
      "history" := JArr(c.history),
      "historyIndex" := JNum(c.historyIndex),
      "messages" := JArr(c.messages)])
  }

  function EncodeChats(cs: seq<StoredChat>): seq<Json> {
    if cs == [] then [] else [EncodeChat(cs[0])] + EncodeChats(cs[1..])
  }

  lemma ChatRoundTrip(c: StoredChat, now: int)
    requires WellFormed(c)
    ensures SanitiseChat(EncodeChat(c), now) == Kept(c)
  {
  }

  /** Saving well-formed chats and loading them back gives the same chats,
      whatever the clock says. */
  lemma {:induction false} SaveLoadRoundTrip(cs: seq<StoredChat>, now: int)
    requires forall k :: 0 <= k < |cs| ==> WellFormed(cs[k])
    ensures SanitiseChats(EncodeChats(cs), now) == Some(cs)
    decreases |cs|
  {
    if cs != [] {
      var items := EncodeChats(cs);
      ChatRoundTrip(cs[0], now);
      assert items[0] == EncodeChat(cs[0]);
      assert items[1..] == EncodeChats(cs[1..]);
      SaveLoadRoundTrip(cs[1..], now);
      assert SanitiseChats(items, now) == Some([cs[0]] + cs[1..]);
      assert [cs[0]] + cs[1..] == cs;
    }
  }

  /** Loading what a load produced and was saved changes nothing more. */
  lemma SanitiseIdempotent(items: seq<Json>, now: int, later: int)
    requires SanitiseChats(items, now).Some?
    ensures SanitiseChats(EncodeChats(SanitiseChats(items, now).value), later) == SanitiseChats(items, now)
  {
    SanitisedChats(items, now);
    SaveLoadRoundTrip(SanitiseChats(items, now).value, later);
  }
}
