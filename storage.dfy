/**
 * The persistence service of the wellness companion (src/services/storage.ts).
 *
 * The browser's local storage holds five keys: the user list, the session
 * pointer and three per-user collections (chats, journals, test results).
 * Every operation reads a whole key, changes it and writes it back. Here each
 * key is a field of `StorageService`; `None` stands for a key that was never
 * written, which `get` reads as `null`. JSON text is not modelled: a key holds
 * its decoded value, and a backup is a document of optional fields.
 */
module Storage {
  import opened Wrappers

  type Id = string

  // ---------------------------------------------------------------------------
  // Entities (src/types.ts)
  // ---------------------------------------------------------------------------

  /** A registered user; `lastLogin` is added by the first successful login. */
  datatype User = User(
    id: Id,
    name: string,
    email: string,
    password: Option<string>,
    bio: Option<string>,
    joinedAt: string,
    lastLogin: Option<string>)

  datatype Role = UserRole | ModelRole

  datatype ChatMessage = ChatMessage(id: Id, role: Role, text: string, timestamp: int)

  datatype JournalEntry = JournalEntry(
    id: Id,
    userId: Id,
    title: string,
    content: string,
    timestamp: int,
    emotions: seq<string>,
    isAnalyzed: bool)

  datatype MentalHealthResult = MentalHealthResult(
    id: Id,
    userId: Id,
    date: string,
    score: int,
    interpretation: string)

  /** The value of a per-user key: user id to that user's ordered list. */
  type Collection<T> = map<Id, seq<T>>

  /** The five keys of the store, as `createBackup` reads them. */
  datatype StoreState = StoreState(
    users: Option<seq<User>>,
    currentUser: Option<Id>,
    chats: Option<Collection<ChatMessage>>,
    journals: Option<Collection<JournalEntry>>,
    results: Option<Collection<MentalHealthResult>>)

  const EmptyStore := StoreState(None, None, None, None, None)

  /** A backup document: the five keys (`null` when absent) and a creation time. */
  datatype BackupDoc = BackupDoc(
    users: Option<seq<User>>,
    currentUser: Option<Id>,
    chats: Option<Collection<ChatMessage>>,
    journals: Option<Collection<JournalEntry>>,
    results: Option<Collection<MentalHealthResult>>,
    timestamp: Option<string>)

  /** What `JSON.parse` makes of the text handed to `restoreBackup`. */
  datatype ParsedBackup = Unparsable | NotAnObject | Document(doc: BackupDoc)

  // ---------------------------------------------------------------------------
  // Searching a list (`Array.prototype.find` / `findIndex`)
  // ---------------------------------------------------------------------------

  /** The first index whose element satisfies `p`, or None (`findIndex` returning -1). */
  function FindIndex<T>(s: seq<T>, p: T -> bool): (r: Option<nat>)
    ensures r.None? <==> forall i :: 0 <= i < |s| ==> !p(s[i])
    ensures r.Some? ==> r.value < |s| && p(s[r.value])
    ensures r.Some? ==> forall i :: 0 <= i < r.value ==> !p(s[i])
  {
    if s == [] then None
    else if p(s[0]) then Some(0)
    else
      match FindIndex(s[1..], p)
      case None => None
      case Some(k) => Some(k + 1)
  }

  predicate Matches(u: User, email: string, password: string) {
    u.email == email && u.password == Some(password)
  }

  predicate EmailTaken(us: seq<User>, email: string) {
    exists i :: 0 <= i < |us| && us[i].email == email
  }

  predicate HasCredentials(us: seq<User>, email: string, password: string) {
    exists i :: 0 <= i < |us| && Matches(us[i], email, password)
  }

  predicate HasUserId(us: seq<User>, id: Id) {
    exists i :: 0 <= i < |us| && us[i].id == id
  }

  /** `k` is the first position of a user with this id. */
  predicate IsFirstUser(us: seq<User>, id: Id, k: int) {
    0 <= k < |us| && us[k].id == id && forall i :: 0 <= i < k ==> us[i].id != id
  }

  /** `k` is the first position of a user with these credentials. */
  predicate IsFirstLogin(us: seq<User>, email: string, password: string, k: int) {
    0 <= k < |us| && Matches(us[k], email, password)
    && forall i :: 0 <= i < k ==> !Matches(us[i], email, password)
  }

  predicate EmailsUnique(us: seq<User>) {
    forall i, j :: 0 <= i < j < |us| ==> us[i].email != us[j].email
  }

  predicate IdsUnique(us: seq<User>) {
    forall i, j :: 0 <= i < j < |us| ==> us[i].id != us[j].id
  }

  // ---------------------------------------------------------------------------
  // Per-user collections
  // ---------------------------------------------------------------------------

  /** `get(KEY) || {}` */
  function MapOf<T>(c: Option<Collection<T>>): Collection<T> {
    if c.Some? then c.value else map[]
  }

  /** `allX[userId] || []`: the list of one user; a user missing from the map has none. */
  function ListOf<T>(c: Option<Collection<T>>, uid: Id): (l: seq<T>)
    ensures l == [] <==> c.None? || uid !in c.value || c.value[uid] == []
    ensures c.Some? && uid in c.value ==> l == c.value[uid]
  {
    var all := MapOf(c);
    if uid in all then all[uid] else []
  }

  predicate HasEntry(l: seq<JournalEntry>, id: Id) {
    exists i :: 0 <= i < |l| && l[i].id == id
  }

  /** `k` is the first position of a journal entry with this id. */
  predicate IsFirstEntry(l: seq<JournalEntry>, id: Id, k: int) {
    0 <= k < |l| && l[k].id == id && forall i :: 0 <= i < k ==> l[i].id != id
  }

  /**
   * The journal list after saving `e`: an entry whose id is already present is
   * replaced where it stands, a new one goes to the front (newest first).
   */
  function Upsert(l: seq<JournalEntry>, e: JournalEntry): (r: seq<JournalEntry>)
    ensures HasEntry(l, e.id) ==> |r| == |l|
    ensures forall k :: IsFirstEntry(l, e.id, k) ==> r == l[k := e]
    ensures !HasEntry(l, e.id) ==> r == [e] + l
    ensures e in r
  {
    match FindIndex(l, (j: JournalEntry) => j.id == e.id)
    case Some(k) =>
      assert l[k := e][k] == e;
      l[k := e]
    case None => [e] + l
  }

  /** Saving two new entries and then re-saving the first with new content. */
  lemma {:induction false} UpsertOrder(j1: JournalEntry, j2: JournalEntry, j1': JournalEntry)
    requires j1.id != j2.id && j1'.id == j1.id
    ensures Upsert(Upsert([], j1), j2) == [j2, j1]
    ensures Upsert([j2, j1], j1') == [j2, j1']
  {
    assert !HasEntry([], j1.id);
    assert !HasEntry([j1], j2.id);
    assert IsFirstEntry([j2, j1], j1'.id, 1);
  }

  // ---------------------------------------------------------------------------
  // Backup and restore
  // ---------------------------------------------------------------------------

  /** JavaScript truthiness of a string: only the empty string is falsy. */
  predicate Truthy(s: string) {
    s != ""
  }

  /** The parse/`timestamp` gate: a parsed object whose `timestamp` is truthy. */
  predicate Accepts(p: ParsedBackup) {
    p.Document? && p.doc.timestamp.Some? && Truthy(p.doc.timestamp.value)
  }

  /** A document field that is present (an array or object is always truthy) replaces the key. */
  function Overwrite<T>(current: Option<T>, incoming: Option<T>): Option<T> {
    if incoming.Some? then incoming else current
  }

  /** The keys after `restoreBackup`: unchanged when the gate refuses, else field by field. */
  function Restored(s: StoreState, p: ParsedBackup): (r: StoreState)
    ensures !Accepts(p) ==> r == s
  {
    if !Accepts(p) then s
    else
      var d := p.doc;
      StoreState(
        Overwrite(s.users, d.users),
        if d.currentUser.Some? && Truthy(d.currentUser.value) then d.currentUser else s.currentUser,
        Overwrite(s.chats, d.chats),
        Overwrite(s.journals, d.journals),
        Overwrite(s.results, d.results))
  }

  /** The document `createBackup` assembles from the keys at time `now`. */
  function BackupOf(s: StoreState, now: string): BackupDoc {
    BackupDoc(s.users, s.currentUser, s.chats, s.journals, s.results, Some(now))
  }

  /** Restoring a store's own backup into it changes nothing. */
  lemma RestoreOwnBackup(s: StoreState, now: string)
    requires Truthy(now)
    ensures Accepts(Document(BackupOf(s, now)))
    ensures Restored(s, Document(BackupOf(s, now))) == s
  {
  }

  /**
   * Restoring a backup into a store that was never written reproduces every key
   * that was present; the one difference is an empty session id, which is falsy
   * and so not written (and reads as "no session" in either store).
   */
  lemma RestoreIntoEmpty(s: StoreState, now: string)
    requires Truthy(now)
    ensures var r := Restored(EmptyStore, Document(BackupOf(s, now)));
      && r.users == s.users && r.chats == s.chats
      && r.journals == s.journals && r.results == s.results
      && (r.currentUser == s.currentUser || s.currentUser == Some(""))
  {
  }

  /** A document holding only `timestamp` and `journals` replaces the journals and nothing else. */
  lemma PartialRestore(s: StoreState, journals: Collection<JournalEntry>, timestamp: string)
    requires Truthy(timestamp)
    ensures Restored(s, Document(BackupDoc(None, None, None, Some(journals), None, Some(timestamp))))
            == s.(journals := Some(journals))
  {
  }

  // ---------------------------------------------------------------------------
  // The service
  // ---------------------------------------------------------------------------

  class StorageService {
    var users: Option<seq<User>>
    var currentUser: Option<Id>
    var chats: Option<Collection<ChatMessage>>
    var journals: Option<Collection<JournalEntry>>
    var results: Option<Collection<MentalHealthResult>>

    /** A browser profile whose storage holds none of the keys. */
    constructor ()
      ensures State() == EmptyStore
    {
      users, currentUser, chats, journals, results := None, None, None, None, None;
    }

    function State(): StoreState
      reads this
    {
      StoreState(users, currentUser, chats, journals, results)
    }

    /** `get(USERS_KEY) || []` */
    function UserList(): seq<User>
      reads this
    {
      if users.Some? then users.value else []
    }

    /** `getChats` */
    function ChatsOf(uid: Id): seq<ChatMessage>
      reads this
    {
      ListOf(chats, uid)
    }

    /** `getJournals` */
    function JournalsOf(uid: Id): seq<JournalEntry>
      reads this
    {
      ListOf(journals, uid)
    }

    /** `getTestResults` */
    function ResultsOf(uid: Id): seq<MentalHealthResult>
      reads this
    {
      ListOf(results, uid)
    }

    /**
     * `register`: refused when the email is already used (exact match);
     * otherwise the user, with the given fresh id and join time, is appended.
     * The session and the collections are never touched.
     */
    method Register(name: string, email: string, password: Option<string>, bio: Option<string>,
                    freshId: Id, now: string) returns (r: Option<User>)
      modifies this
      ensures r.None? <==> EmailTaken(old(UserList()), email)
      ensures r.None? ==> users == old(users)
      ensures r.Some? ==> r.value == User(freshId, name, email, password, bio, now, None)
      ensures r.Some? ==> users == Some(old(UserList()) + [r.value])
      ensures currentUser == old(currentUser) && chats == old(chats)
      ensures journals == old(journals) && results == old(results)
      ensures EmailsUnique(old(UserList())) ==> EmailsUnique(UserList())
    {
      var list := UserList();
      if FindIndex(list, (u: User) => u.email == email).Some? {
        return None;
      }
      var newUser := User(freshId, name, email, password, bio, now, None);
      list := list + [newUser];
      users := Some(list);
      r := Some(newUser);
    }

    /**
     * `login`: the first user with these credentials becomes the session and
     * gets `lastLogin` stamped; the stamped record is written over the first
     * user carrying the same id (that same user when ids are unique).
     */
    method Login(email: string, password: string, now: string) returns (r: Option<User>)
      modifies this
      ensures r.None? <==> !HasCredentials(old(UserList()), email, password)
      ensures r.None? ==> users == old(users) && currentUser == old(currentUser)
      ensures r.Some? ==> currentUser == Some(r.value.id)
      ensures r.Some? ==> exists i :: IsFirstLogin(old(UserList()), email, password, i)
                                      && r.value == old(UserList())[i].(lastLogin := Some(now))
      ensures r.Some? ==> exists j :: IsFirstUser(old(UserList()), r.value.id, j)
                                      && users == Some(old(UserList())[j := r.value])
      ensures r.Some? && IdsUnique(old(UserList())) ==>
                exists i :: IsFirstLogin(old(UserList()), email, password, i)
                            && users == Some(old(UserList())[i := r.value])
      ensures chats == old(chats) && journals == old(journals) && results == old(results)
    {
      var list := UserList();
      var found := FindIndex(list, (u: User) => Matches(u, email, password));
      if found.None? {
        return None;
      }
      var user := list[found.value];
      currentUser := Some(user.id);
      var updated := user.(lastLogin := Some(now));
      var index := FindIndex(list, (u: User) => u.id == user.id);
      assert IsFirstLogin(list, email, password, found.value);
      assert IsFirstUser(list, user.id, index.value);
      list := list[index.value := updated];
      users := Some(list);
      r := Some(updated);
    }

    /** `logout`: removes the session key and nothing else, so a second call changes nothing. */
    method Logout()
      modifies this
      ensures State() == old(State()).(currentUser := None)
      ensures CurrentUser() == None
    {
      currentUser := None;
    }

    /**
     * `getCurrentUser`: the first user whose id is the session id; none when
     * there is no session, the id is empty or no user carries it.
     */
    function CurrentUser(): (r: Option<User>)
      reads this
      ensures r.None? <==> (currentUser.None? || !Truthy(currentUser.value)
                            || !HasUserId(UserList(), currentUser.value))
      ensures r.Some? ==> exists k :: IsFirstUser(UserList(), currentUser.value, k) && r.value == UserList()[k]
    {
      if currentUser.None? || !Truthy(currentUser.value) then None
      else
        var id := currentUser.value;
        var list := UserList();
        match FindIndex(list, (u: User) => u.id == id)
        case None => None
        case Some(k) => Some(list[k])
    }

    /** `updateUser`: overwrites the first user with the same id; no write when there is none. */
    method UpdateUser(updated: User)
      modifies this
      ensures !HasUserId(old(UserList()), updated.id) ==> users == old(users)
      ensures HasUserId(old(UserList()), updated.id) ==>
                exists k :: IsFirstUser(old(UserList()), updated.id, k)
                            && users == Some(old(UserList())[k := updated])
      ensures currentUser == old(currentUser) && chats == old(chats)
      ensures journals == old(journals) && results == old(results)
    {
      var list := UserList();
      var index := FindIndex(list, (u: User) => u.id == updated.id);
      if index.Some? {
        assert IsFirstUser(list, updated.id, index.value);
        list := list[index.value := updated];
        users := Some(list);
      }
    }

    /** `saveChat`: appends the message to the user's chat list. */
    method SaveChat(uid: Id, message: ChatMessage)
      modifies this
      ensures chats == Some(MapOf(old(chats))[uid := old(ChatsOf(uid)) + [message]])
      ensures ChatsOf(uid) == old(ChatsOf(uid)) + [message]
      ensures forall other :: other != uid ==> ChatsOf(other) == old(ChatsOf(other))
      ensures users == old(users) && currentUser == old(currentUser)
      ensures journals == old(journals) && results == old(results)
    {
      var allChats := MapOf(chats);
      var userChats := if uid in allChats then allChats[uid] else [];
      userChats := userChats + [message];
      allChats := allChats[uid := userChats];
      chats := Some(allChats);
    }

    /** `saveJournal`: replaces the entry with the same id in place, or puts a new one first. */
    method SaveJournal(uid: Id, entry: JournalEntry)
      modifies this
      ensures journals == Some(MapOf(old(journals))[uid := Upsert(old(JournalsOf(uid)), entry)])
      ensures JournalsOf(uid) == Upsert(old(JournalsOf(uid)), entry)
      ensures forall other :: other != uid ==> JournalsOf(other) == old(JournalsOf(other))
      ensures users == old(users) && currentUser == old(currentUser)
      ensures chats == old(chats) && results == old(results)
    {
      var allJournals := MapOf(journals);
      var userJournals := if uid in allJournals then allJournals[uid] else [];
      var existingIndex := FindIndex(userJournals, (j: JournalEntry) => j.id == entry.id);
      if existingIndex.Some? {
        userJournals := userJournals[existingIndex.value := entry];
      } else {
        userJournals := [entry] + userJournals;
      }
      allJournals := allJournals[uid := userJournals];
      journals := Some(allJournals);
    }

    /** `saveTestResult`: appends the result to the user's result list. */
    method SaveTestResult(uid: Id, result: MentalHealthResult)
      modifies this
      ensures results == Some(MapOf(old(results))[uid := old(ResultsOf(uid)) + [result]])
      ensures ResultsOf(uid) == old(ResultsOf(uid)) + [result]
      ensures forall other :: other != uid ==> ResultsOf(other) == old(ResultsOf(other))
      ensures users == old(users) && currentUser == old(currentUser)
      ensures chats == old(chats) && journals == old(journals)
    {
      var allResults := MapOf(results);
      var userResults := if uid in allResults then allResults[uid] else [];
      userResults := userResults + [result];
      allResults := allResults[uid := userResults];
      results := Some(allResults);
    }

    /**
     * `createBackup`: a snapshot of the five keys stamped with `now`; restoring
     * it into this store accepts it (an ISO time is never empty) and changes nothing.
     */
    function CreateBackup(now: string): (d: BackupDoc)
      reads this
      ensures d.timestamp == Some(now)
      ensures Accepts(Document(d)) <==> Truthy(now)
      ensures Truthy(now) ==> Restored(State(), Document(d)) == State()
      ensures Truthy(now) ==>
                var r := Restored(EmptyStore, Document(d));
                && r.users == users && r.chats == chats
                && r.journals == journals && r.results == results
                && (r.currentUser == currentUser || currentUser == Some(""))
    {
      BackupOf(State(), now)
    }

    /**
     * `restoreBackup`: false and no write unless the text parses to an object
     * with a truthy `timestamp`; otherwise every truthy field overwrites its key.
     */
    method RestoreBackup(parsed: ParsedBackup) returns (ok: bool)
      modifies this
      ensures ok == Accepts(parsed)
      ensures State() == Restored(old(State()), parsed)
    {
      if !Accepts(parsed) {
        return false;
      }
      var data := parsed.doc;
      if data.users.Some? {
        users := data.users;
      }
      if data.currentUser.Some? && Truthy(data.currentUser.value) {
        currentUser := data.currentUser;
      }
      if data.chats.Some? {
        chats := data.chats;
      }
      if data.journals.Some? {
        journals := data.journals;
      }
      if data.results.Some? {
        results := data.results;
      }
      ok := true;
    }
  }
}
