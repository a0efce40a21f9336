/** Cursor pages of a conversation's messages, and a reader walking back through them while messages are
    appended, edited and truncated. */
module MessagePaging {
  import opened Sums

  const MAX_PAGE_SIZE := 100

  type Id = nat

  datatype Stored = Stored(conversation: int, role: string, content: string, deleted: bool)

  datatype Shown = Shown(id: Id, role: string, content: string, isDeleted: bool)

  datatype Page = Page(messages: seq<Shown>, hasMore: bool, nextBefore: Option<Id>)

  datatype Conversation = Conversation(customer: int, guest: string, inScope: bool)

  type Table = map<Id, Stored>

  function PageSize(requested: int): int {
    Between(1, MAX_PAGE_SIZE, requested)
  }

  /** The rows that a page may hold: a missing, zero or negative cursor does not narrow the query. */
  function Older(table: Table, conversation: int, before: Option<int>): set<Id> {
    set id | id in table && table[id].conversation == conversation
             && (before.Some? && before.value > 0 ==> id < before.value)
  }

  /** A soft-deleted message keeps its place and loses its text. */
  function Show(id: Id, row: Stored): Shown {
    Shown(id, row.role, if row.deleted then "" else row.content, row.deleted)
  }

  ghost predicate Ascending(ids: seq<Id>) {
    forall i, j :: 0 <= i < j < |ids| ==> ids[i] < ids[j]
  }

  function IdsOf(messages: seq<Shown>): (ids: seq<Id>)
    ensures |ids| == |messages| && forall i :: 0 <= i < |ids| ==> ids[i] == messages[i].id
  {
    seq(|messages|, i requires 0 <= i < |messages| => messages[i].id)
  }

  /** The newest messages under the cursor in ascending order, at most a page of them, and a cursor exactly
      when there are older ones. */
  ghost predicate IsPage(page: Page, table: Table, conversation: int, before: Option<int>, requested: int) {
    var older, ids := Older(table, conversation, before), IdsOf(page.messages);
    && Ascending(ids)
    && (forall i :: 0 <= i < |ids| ==> ids[i] in older && page.messages[i] == Show(ids[i], table[ids[i]]))
    && (forall id, i :: id in older && 0 <= i < |ids| && id !in ids ==> id < ids[i])
    && |ids| == (if |older| <= PageSize(requested) then |older| else PageSize(requested))
    && page.hasMore == (|older| > PageSize(requested))
    && page.nextBefore == (if page.hasMore then Some(ids[0]) else None)
  }

  // ---------------------------------------------------------------- loading one page

  lemma {:induction false} HasLargest(ids: set<Id>)
    requires ids != {}
    ensures exists largest :: largest in ids && forall id :: id in ids ==> id <= largest
    decreases |ids|
  {
    var id :| id in ids;
    var rest := ids - {id};
    if rest == {} {
      assert forall other :: other in ids ==> other == id || other in rest;
    } else {
      HasLargest(rest);
      var below :| below in rest && forall other :: other in rest ==> other <= below;
      var largest := if below > id then below else id;
      assert largest in ids && forall other :: other in ids ==> other == id || other in rest;
    }
  }

  function Largest(ids: set<Id>): (largest: Id)
    requires ids != {}
    ensures largest in ids && forall id :: id in ids ==> id <= largest
  {
    HasLargest(ids);
    var largest :| largest in ids && forall id :: id in ids ==> id <= largest;
    largest
  }

  /** The query: ids in descending order, at most `limit` of them. */
  function Newest(ids: set<Id>, limit: nat): (rows: seq<Id>)
    ensures |rows| == if |ids| <= limit then |ids| else limit
    ensures forall i, j :: 0 <= i < j < |rows| ==> rows[i] > rows[j]
    ensures forall i :: 0 <= i < |rows| ==> rows[i] in ids
    ensures forall id, i :: id in ids && 0 <= i < |rows| && id !in rows ==> id < rows[i]
    decreases limit
  {
    if limit == 0 || ids == {} then [] else [Largest(ids)] + Newest(ids - {Largest(ids)}, limit - 1)
  }

  function Reversed(rows: seq<Id>): (reversed: seq<Id>)
    ensures |reversed| == |rows| && forall i :: 0 <= i < |rows| ==> reversed[i] == rows[|rows| - 1 - i]
  {
    seq(|rows|, i requires 0 <= i < |rows| => rows[|rows| - 1 - i])
  }

  /** Distinct rows in descending order that leave only smaller ids behind. */
  ghost predicate NewestRows(rows: seq<Id>, ids: set<Id>) {
    && (forall i, j :: 0 <= i < j < |rows| ==> rows[i] > rows[j])
    && (forall i :: 0 <= i < |rows| ==> rows[i] in ids)
    && (forall id, i :: id in ids && 0 <= i < |rows| && id !in rows ==> id < rows[i])
  }

  lemma LastRowDropped(rows: seq<Id>, ids: set<Id>)
    requires NewestRows(rows, ids) && rows != []
    ensures NewestRows(rows[..|rows| - 1], ids)
  {
    var kept := rows[..|rows| - 1];
    forall id, i | id in ids && 0 <= i < |kept| && id !in kept ensures id < kept[i] {
      if id in rows {
        assert id == rows[|rows| - 1];
      }
    }
  }

  lemma RowsReversed(rows: seq<Id>, ids: set<Id>)
    requires NewestRows(rows, ids)
    ensures var reversed := Reversed(rows);
            && Ascending(reversed) && (forall i :: 0 <= i < |reversed| ==> reversed[i] in ids)
            && (forall id, i :: id in ids && 0 <= i < |reversed| && id !in reversed ==> id < reversed[i])
  {
    var reversed := Reversed(rows);
    forall id | id in rows ensures id in reversed {
      var k :| 0 <= k < |rows| && rows[k] == id;
      assert reversed[|rows| - 1 - k] == id;
    }
  }

  /** Sixty-four lower-case hexadecimal digits. */
  predicate IsGuestToken(guest: string) {
    |guest| == 64 && forall i :: 0 <= i < |guest| ==> '0' <= guest[i] <= '9' || 'a' <= guest[i] <= 'f'
  }

  class MessagePageLoader {
    var table: Table
    var conversations: map<int, Conversation>

    constructor (table: Table, conversations: map<int, Conversation>)
      ensures this.table == table && this.conversations == conversations
    {
      this.table, this.conversations := table, conversations;
    }

    method LoadRows(conversation: int, before: Option<int>, requested: int) returns (page: Page)
      ensures IsPage(page, table, conversation, before, requested)
    {
      var size := PageSize(requested);
      var older := Older(table, conversation, before);
      var rows, hasMore := FetchRows(older, size);
      var messages := ShowAll(rows);
      assert IdsOf(messages) == rows;
      page := Page(messages, hasMore, if hasMore && messages != [] then Some(messages[0].id) else None);
    }

    /** The query for one row more than the page, the extra row dropped, and the order turned round. */
    method FetchRows(older: set<Id>, size: nat) returns (rows: seq<Id>, hasMore: bool)
      requires size >= 1
      ensures Ascending(rows) && |rows| == (if |older| <= size then |older| else size) && hasMore == (|older| > size)
      ensures forall i :: 0 <= i < |rows| ==> rows[i] in older
      ensures forall id, i :: id in older && 0 <= i < |rows| && id !in rows ==> id < rows[i]
    {
      rows := Newest(older, size + 1);
      hasMore := |rows| > size;
      if hasMore {
        LastRowDropped(rows, older);
        rows := rows[..|rows| - 1];
      }
      RowsReversed(rows, older);
      rows := Reversed(rows);
    }

    method ShowAll(rows: seq<Id>) returns (messages: seq<Shown>)
      requires forall i :: 0 <= i < |rows| ==> rows[i] in table
      ensures |messages| == |rows| && forall i :: 0 <= i < |rows| ==> messages[i] == Show(rows[i], table[rows[i]])
    {
      messages := [];
      for k := 0 to |rows|
        invariant |messages| == k
        invariant forall i :: 0 <= i < k ==> messages[i] == Show(rows[i], table[rows[i]])
      {
        messages := messages + [Show(rows[k], table[rows[k]])];
      }
    }

    /** A customer reads only conversations of their own in the current store scope. */
    method Load(conversation: int, customer: int, before: Option<int>, requested: int) returns (page: Option<Page>)
      ensures page.Some? <==> conversation >= 1 && customer >= 1 && conversation in conversations
                              && conversations[conversation].customer == customer && conversations[conversation].inScope
      ensures page.Some? ==> IsPage(page.value, table, conversation, before, requested)
    {
      if conversation < 1 || customer < 1 || conversation !in conversations {
        return None;
      }
      if conversations[conversation].customer != customer || !conversations[conversation].inScope {
        return None;
      }
      var rows := LoadRows(conversation, before, requested);
      page := Some(rows);
    }

    /** A guest reads only conversations under their own token in the current store scope. */
    method LoadGuest(conversation: int, guest: string, before: Option<int>, requested: int) returns (page: Option<Page>)
      ensures page.Some? <==> conversation >= 1 && IsGuestToken(guest) && conversation in conversations
                              && conversations[conversation].guest == guest && conversations[conversation].inScope
      ensures page.Some? ==> IsPage(page.value, table, conversation, before, requested)
    {
      if conversation < 1 || !IsGuestToken(guest) || conversation !in conversations {
        return None;
      }
      if conversations[conversation].guest != guest || !conversations[conversation].inScope {
        return None;
      }
      var rows := LoadRows(conversation, before, requested);
      page := Some(rows);
    }
  }

  /** Sixty-four characters, each one of sixteen. */
  lemma GuestTokensAreHexadecimal(guest: string)
    ensures IsGuestToken(guest) <==>
            |guest| == 64 && forall i :: 0 <= i < |guest| ==> guest[i] in "0123456789abcdef"
  {
    forall c: char ensures c in "0123456789abcdef" <==> '0' <= c <= '9' || 'a' <= c <= 'f' {
      HexadecimalDigits(c);
    }
  }

  lemma HexadecimalDigits(c: char)
    ensures c in "0123456789abcdef" <==> '0' <= c <= '9' || 'a' <= c <= 'f'
  {
    var digits := "0123456789abcdef";
    if '0' <= c <= '9' {
      assert digits[c as int - '0' as int] == c;
    } else if 'a' <= c <= 'f' {
      assert digits[10 + c as int - 'a' as int] == c;
    }
  }

  /** What a page shows of each stored message: its number and role, and its text unless it is deleted. */
  lemma PagesShowTheText(page: Page, table: Table, conversation: int, before: Option<int>, requested: int, i: nat)
    requires IsPage(page, table, conversation, before, requested) && i < |page.messages|
    ensures var shown := page.messages[i];
            && shown.id in table && table[shown.id].conversation == conversation
            && shown.role == table[shown.id].role && shown.isDeleted == table[shown.id].deleted
            && (!shown.isDeleted ==> shown.content == table[shown.id].content)
            && (shown.isDeleted ==> shown.content == "")
  {
    assert IdsOf(page.messages)[i] in Older(table, conversation, before);
  }

  /** A page holds as many messages as were asked for, between one and a hundred, or all there are under the cursor; any
      cursor below one starts at the newest. */
  lemma PagesHoldWhatWasAsked(page: Page, table: Table, conversation: int, before: Option<int>, requested: int)
    requires IsPage(page, table, conversation, before, requested)
    ensures var older := set id | id in table && table[id].conversation == conversation
                                  && (before.None? || before.value < 1 || id < before.value);
            var asked := if requested < 1 then 1 else if requested > 100 then 100 else requested;
            && page.hasMore == (|older| > asked) && |page.messages| == (if |older| > asked then asked else |older|)
            && (!page.hasMore ==> forall id :: id in older ==> id in IdsOf(page.messages))
            && (page.hasMore ==> page.nextBefore == Some(page.messages[0].id))
  {
    var older := set id | id in table && table[id].conversation == conversation
                          && (before.None? || before.value < 1 || id < before.value);
    assert older == Older(table, conversation, before);
    if !page.hasMore {
      AllOlderRead(older, IdsOf(page.messages));
    }
  }

  // ---------------------------------------------------------------- changes between requests

  predicate Anchors(table: Table, conversation: int, from: int) {
    && conversation >= 1 && from >= 1
    && from in table && table[from].conversation == conversation && table[from].role == "user"
  }

  /** Deletes the branch that starts at a user message, and nothing for any other anchor. */
  function Truncated(table: Table, conversation: int, from: int): Table {
    if Anchors(table, conversation, from) then
      map id | id in table && !(table[id].conversation == conversation && id >= from) :: table[id]
    else
      table
  }

  class ConversationResource {
    var messages: Table

    constructor (messages: Table)
      ensures this.messages == messages
    {
      this.messages := messages;
    }

    method TruncateMessagesFrom(conversation: int, from: int) returns (done: bool)
      modifies this
      ensures done == old(Anchors(messages, conversation, from))
      ensures messages == Truncated(old(messages), conversation, from)
    {
      if conversation < 1 || from < 1 {
        return false;
      }
      if from !in messages || messages[from].conversation != conversation || messages[from].role != "user" {
        return false;
      }
      messages := map id | id in messages && !(messages[id].conversation == conversation && id >= from) :: messages[id];
      done := true;
    }
  }

  // ---------------------------------------------------------------- walking back

  datatype Cursor = Start | At(before: Id) | Done

  /** The table with its next id, the reader's cursor, the messages read so far, oldest first, the number of
      requests made, and the messages of the conversation at the first of them. */
  datatype Walk = Walk(table: Table, nextId: Id, cursor: Cursor, read: seq<Id>, requests: nat, first: set<Id>)

  datatype Step =
    | Append(row: Stored)
    | Edit(id: Id, content: string, deleted: bool)
    | Truncate(conversation: int, from: int)
    | Fetch(requested: int, page: Page)

  function Before(cursor: Cursor): Option<int> {
    if cursor.At? then Some(cursor.before) else None
  }

  ghost predicate Possible(w: Walk, conversation: int, step: Step) {
    match step
    case Append(_) => true
    case Edit(id, _, _) => id in w.table
    case Truncate(_, _) => true
    case Fetch(requested, page) => !w.cursor.Done? && IsPage(page, w.table, conversation, Before(w.cursor), requested)
  }

  function After(w: Walk, conversation: int, step: Step): Walk {
    match step
    case Append(row) => w.(table := w.table[w.nextId := row], nextId := w.nextId + 1)
    case Edit(id, content, deleted) =>
      if id in w.table then w.(table := w.table[id := w.table[id].(content := content, deleted := deleted)]) else w
    case Truncate(other, from) => w.(table := Truncated(w.table, other, from))
    case Fetch(_, page) =>
      w.(cursor := if page.nextBefore.Some? then At(page.nextBefore.value) else Done,
         read := IdsOf(page.messages) + w.read,
         requests := w.requests + 1,
         first := if w.cursor.Start? then Older(w.table, conversation, None) else w.first)
  }

  function Walked(start: Walk, conversation: int, steps: seq<Step>): Walk {
    if steps == [] then start
        else After(Walked(start, conversation, steps[..|steps| - 1]), conversation, steps[|steps| - 1])
  }

  ghost predicate Run(start: Walk, conversation: int, steps: seq<Step>) {
    steps == [] || (Run(start, conversation, steps[..|steps| - 1])
                    && Possible(Walked(start, conversation, steps[..|steps| - 1]), conversation, steps[|steps| - 1]))
  }

  /** Ids are positive and handed out in increasing order. */
  ghost predicate Fresh(w: Walk) {
    && w.cursor == Start && w.read == [] && w.requests == 0 && w.first == {}
    && w.nextId >= 1 && (forall id :: id in w.table ==> 1 <= id < w.nextId)
  }

  /** What has been read is ascending and was there at the start; whatever was there at the start and survives has
      been read down to the cursor; and while there is a cursor, an older first message is still to come. */
  ghost predicate OnCourse(w: Walk, conversation: int) {
    && w.nextId >= 1 && (forall id :: id in w.table ==> 1 <= id < w.nextId)
    && (forall id :: id in w.first ==> id < w.nextId && (id in w.table ==> w.table[id].conversation == conversation))
    && (w.cursor.Start? ==> w.read == [] && w.requests == 0)
    && Ascending(w.read) && (forall i :: 0 <= i < |w.read| ==> w.read[i] in w.first)
    && (w.cursor.At? ==> BehindCursor(w, conversation))
    && (w.cursor.Done? ==> AllRead(w))
  }

  ghost predicate AllRead(w: Walk) {
    w.requests <= AtMostRequests(w.first) && forall id :: id in w.first && id in w.table ==> id in w.read
  }

  function AtMostRequests(first: set<Id>): nat {
    if |first| == 0 then 1 else |first|
  }

  ghost predicate BehindCursor(w: Walk, conversation: int)
    requires w.cursor.At?
  {
    var before := w.cursor.before;
    && 1 <= before < w.nextId && w.requests <= |w.read|
    && (forall i :: 0 <= i < |w.read| ==> before <= w.read[i])
    && (forall id :: id in w.first && id in w.table && before <= id ==> id in w.read)
    && (forall id :: id in w.table && w.table[id].conversation == conversation && id < before ==> id in w.first)
    && (exists id :: id in w.first && id < before)
  }

  lemma ChangeKeepsCourse(w: Walk, conversation: int, step: Step)
    requires OnCourse(w, conversation) && Possible(w, conversation, step) && !step.Fetch?
    ensures OnCourse(After(w, conversation, step), conversation)
  {
  }

  lemma Prepended(ids: seq<Id>, read: seq<Id>)
    requires Ascending(ids) && Ascending(read) && forall i, j :: 0 <= i < |ids| && 0 <= j < |read| ==> ids[i] < read[j]
    ensures Ascending(ids + read)
    ensures forall id :: id in ids + read <==> id in ids || id in read
  {
  }

  /** How a fetch moves the reader on. */
  lemma PageExtends(w: Walk, conversation: int, requested: int, page: Page)
    requires OnCourse(w, conversation) && Possible(w, conversation, Fetch(requested, page))
    ensures var w' := After(w, conversation, Fetch(requested, page));
            && Older(w.table, conversation, Before(w.cursor)) <= w'.first
            && Ascending(w'.read) && (forall id :: id in w'.read ==> id in w'.first)
            && (forall id :: id in w'.read <==> id in IdsOf(page.messages) || id in w.read)
  {
    var ids := IdsOf(page.messages);
    if w.cursor.At? {
      forall i, j | 0 <= i < |ids| && 0 <= j < |w.read| ensures ids[i] < w.read[j] {
        assert ids[i] in Older(w.table, conversation, Before(w.cursor));
      }
    }
    Prepended(ids, w.read);
  }

  lemma {:induction false} AscendingFits(ids: seq<Id>, all: set<Id>)
    requires Ascending(ids) && forall i :: 0 <= i < |ids| ==> ids[i] in all
    ensures |ids| <= |all|
    decreases |ids|
  {
    if ids != [] {
      var last := ids[|ids| - 1];
      AscendingFits(ids[..|ids| - 1], all - {last});
    }
  }

  /** An unread first message below everything read leaves room for one more request. */
  lemma UnreadRemains(read: seq<Id>, first: set<Id>, unread: Id)
    requires Ascending(read) && (forall i :: 0 <= i < |read| ==> read[i] in first && unread < read[i])
    requires unread in first
    ensures |read| + 1 <= |first|
  {
    AscendingFits([unread] + read, first);
  }

  /** A reader with a cursor has fewer requests behind it than first messages. */
  lemma RequestsSpared(w: Walk, conversation: int)
    requires OnCourse(w, conversation) && w.cursor.At?
    ensures w.requests + 1 <= |w.first|
  {
    var unread :| unread in w.first && unread < w.cursor.before;
    UnreadRemains(w.read, w.first, unread);
  }

  lemma MorePagesKeepCourse(w: Walk, conversation: int, requested: int, page: Page)
    requires OnCourse(w, conversation) && Possible(w, conversation, Fetch(requested, page)) && page.hasMore
    ensures BehindCursor(After(w, conversation, Fetch(requested, page)), conversation)
  {
    var w' := After(w, conversation, Fetch(requested, page));
    var older, ids := Older(w.table, conversation, Before(w.cursor)), IdsOf(page.messages);
    PageExtends(w, conversation, requested, page);
    OlderRemains(older, ids);
    var rest :| rest in older && rest !in ids;
    assert rest < ids[0] && rest in w'.first;
  }

  lemma LastPageKeepsCourse(w: Walk, conversation: int, requested: int, page: Page)
    requires OnCourse(w, conversation) && Possible(w, conversation, Fetch(requested, page)) && !page.hasMore
    ensures AllRead(After(w, conversation, Fetch(requested, page)))
  {
    PageExtends(w, conversation, requested, page);
    AllOlderRead(Older(w.table, conversation, Before(w.cursor)), IdsOf(page.messages));
    if w.cursor.At? {
      RequestsSpared(w, conversation);
    }
  }

  lemma FetchKeepsCourse(w: Walk, conversation: int, requested: int, page: Page)
    requires OnCourse(w, conversation) && Possible(w, conversation, Fetch(requested, page))
    ensures OnCourse(After(w, conversation, Fetch(requested, page)), conversation)
  {
    PageExtends(w, conversation, requested, page);
    if page.hasMore {
      MorePagesKeepCourse(w, conversation, requested, page);
    } else {
      LastPageKeepsCourse(w, conversation, requested, page);
    }
  }

  lemma {:induction false} OlderRemains(older: set<Id>, ids: seq<Id>)
    requires |older| > |ids|
    ensures exists id :: id in older && id !in ids
    decreases |ids|
  {
    if ids == [] {
      var id :| id in older;
    } else {
      var last := ids[|ids| - 1];
      OlderRemains(older - {last}, ids[..|ids| - 1]);
    }
  }

  /** A page as large as what lies below the cursor holds all of it. */
  lemma AllOlderRead(older: set<Id>, ids: seq<Id>)
    requires Ascending(ids) && (forall i :: 0 <= i < |ids| ==> ids[i] in older) && |ids| == |older|
    ensures forall id :: id in older ==> id in ids
  {
    forall id | id in older ensures id in ids {
      if id !in ids {
        AscendingFits(ids, older - {id});
      }
    }
  }

  lemma {:induction false} RunStaysOnCourse(start: Walk, conversation: int, steps: seq<Step>)
    requires Fresh(start) && Run(start, conversation, steps)
    ensures OnCourse(Walked(start, conversation, steps), conversation)
  {
    if steps != [] {
      var front, step := steps[..|steps| - 1], steps[|steps| - 1];
      RunStaysOnCourse(start, conversation, front);
      if step.Fetch? {
        FetchKeepsCourse(Walked(start, conversation, front), conversation, step.requested, step.page);
      } else {
        ChangeKeepsCourse(Walked(start, conversation, front), conversation, step);
      }
    }
  }

  /** A finished walk has read, in order and once each, every message that was there at its first request and
      still is; it has read nothing that was not there; and it took no more requests than there were messages. */
  lemma WalkIsComplete(start: Walk, conversation: int, steps: seq<Step>)
    requires Fresh(start) && Run(start, conversation, steps) && Walked(start, conversation, steps).cursor.Done?
    ensures var w := Walked(start, conversation, steps);
            && (forall id :: id in w.first && id in w.table ==> id in w.read)
            && (forall i :: 0 <= i < |w.read| ==> w.read[i] in w.first)
            && (forall i, j :: 0 <= i < j < |w.read| ==> w.read[i] < w.read[j])
            && w.requests <= AtMostRequests(w.first)
  {
    RunStaysOnCourse(start, conversation, steps);
  }

  /** Every page but the last moves the cursor strictly down, and an unfinished walk has requests to spare, so every
      walk ends. */
  lemma CursorDecreases(start: Walk, conversation: int, steps: seq<Step>, requested: int, page: Page)
    requires Fresh(start) && Run(start, conversation, steps)
    requires Possible(Walked(start, conversation, steps), conversation, Fetch(requested, page))
    ensures var w := Walked(start, conversation, steps);
            var w' := After(w, conversation, Fetch(requested, page));
            && (w.cursor.At? && w'.cursor.At? ==> w'.cursor.before < w.cursor.before)
            && (w'.cursor.At? ==> w'.requests < |w'.first|)
  {
    RunStaysOnCourse(start, conversation, steps);
    var w := Walked(start, conversation, steps);
    var w' := After(w, conversation, Fetch(requested, page));
    FetchKeepsCourse(w, conversation, requested, page);
    if w'.cursor.At? {
      RequestsSpared(w', conversation);
    }
  }

  /** What happens to the messages between two requests: one more under the next number, the text and the deletion of
      one that is there, or a truncation; a request changes none of them. */
  lemma ChangesOfTheTable(w: Walk, conversation: int, step: Step, id: Id)
    requires (forall k :: k in w.table ==> k < w.nextId) && Possible(w, conversation, step)
    ensures var w' := After(w, conversation, step);
            match step
            case Append(row) => w'.table == w.table[w.nextId := row] && w'.nextId == w.nextId + 1
            case Edit(edited, content, deleted) =>
              var row := w.table[edited];
              w'.table == w.table[edited := Stored(row.conversation, row.role, content, deleted)]
            case Truncate(other, from) =>
              id in w.table ==> (id in w'.table <==> id in Truncated(w.table, other, from))
            case Fetch(_, _) => w'.table == w.table && w'.requests == w.requests + 1
  {
  }

  /** A truncation removes a whole suffix of one conversation, and only from one of its user messages. */
  lemma TruncationIsASuffix(table: Table, conversation: int, from: int, id: Id)
    requires id in table
    ensures id !in Truncated(table, conversation, from)
      <==> && conversation >= 1 && from >= 1 && from in table
           && table[from].conversation == conversation && table[from].role == "user"
           && table[id].conversation == conversation && id >= from
    ensures Truncated(table, conversation, from).Keys <= table.Keys
    ensures id in Truncated(table, conversation, from) ==> Truncated(table, conversation, from)[id] == table[id]
  {
  }
}
