/** The message search index: three inverted indexes kept in step with the live messages. */
module MessageIndex {
  import opened Common

  datatype Message = Message(
    messageId: string, text: string, author: string, channel: string,
    createdAt: int, updatedAt: int, deletedAt: Option<int>, retentionUntil: Option<int>)

  datatype Filters = Filters(
    keyword: Option<string>, phrase: Option<string>, author: Option<string>, channel: Option<string>,
    dateStart: Option<int>, dateEnd: Option<int>)
  {
    predicate OnlyDates() {
      keyword.None? && phrase.None? && author.None? && channel.None? && dateStart.Some? && dateEnd.Some?
    }

    predicate OnlyAuthor() {
      keyword.None? && phrase.None? && author.Some? && channel.None? && dateStart.None? && dateEnd.None?
    }

    predicate OnlyChannel() {
      keyword.None? && phrase.None? && author.None? && channel.Some? && dateStart.None? && dateEnd.None?
    }
  }

  /** Text handling taken from the standard library: lower-casing, the tokens of a text, and
      the close matches of a token in a vocabulary. */
  datatype TextTools = TextTools(
    lower: string -> string,
    tokens: string -> seq<string>,
    near: (string, set<string>) -> set<string>)

  /** A filter applies only when it is present and not empty or zero. */
  predicate Given(s: Option<string>) { s.Some? && s.value != "" }
  predicate Timed(t: Option<int>) { t.Some? && t.value != 0 }

  predicate OccursIn(needle: string, hay: string) {
    exists i | 0 <= i <= |hay| :: OccursAt(needle, hay, i)
  }

  predicate OccursAt(needle: string, hay: string, i: nat) {
    i + |needle| <= |hay| && hay[i..i + |needle|] == needle
  }

  type Messages = map<string, Message>
  type Index = map<string, set<string>>

  predicate Has(index: Index, key: string, id: string) { key in index && id in index[key] }

  predicate NoEmptyBucket(index: Index) { forall key <- index :: index[key] != {} }

  function Bucket(index: Index, key: string): set<string> { if key in index then index[key] else {} }

  function Add(index: Index, key: string, id: string): (r: Index)
    ensures forall k, i :: Has(r, k, i) <==> Has(index, k, i) || (k == key && i == id)
    ensures NoEmptyBucket(index) ==> NoEmptyBucket(r)
  {
    index[key := Bucket(index, key) + {id}]
  }

  function Discard(index: Index, key: string, id: string): (r: Index)
    ensures forall k, i :: Has(r, k, i) <==> Has(index, k, i) && !(k == key && i == id)
    ensures NoEmptyBucket(index) ==> NoEmptyBucket(r)
  {
    if key !in index || index[key] == {} then index
    else if index[key] - {id} == {} then
      assert forall i <- index[key] :: i in index[key] - {id} || i == id;
      index - {key}
    else index[key := index[key] - {id}]
  }

  // --------------------------------------------------- what the messages should be

  predicate Expired(m: Message, now: int) {
    || (Timed(m.deletedAt) && m.deletedAt.value <= now)
    || (Timed(m.retentionUntil) && m.retentionUntil.value <= now)
  }

  function Retained(messages: Messages, now: int): Messages {
    map id | id in messages && !Expired(messages[id], now) :: messages[id]
  }

  function MarkDeleted(messages: Messages, id: string, at: int): Messages {
    if id in messages then messages[id := messages[id].(deletedAt := Some(at))] else messages
  }

  /** An incoming change. Payloads that lack a required field are `Malformed`. */
  datatype Change =
    | New(message: Message)
    | Edit(message: Message)
    | Malformed
    | Delete(messageId: Option<string>, deletedAt: Option<int>)
    | Unsupported
    | Sync(now: int)

  function Changed(messages: Messages, c: Change): Messages {
    match c
    case New(m) => messages[m.messageId := m]
    case Edit(m) => messages[m.messageId := m]
    case Malformed => messages
    case Delete(id, at) =>
      if id.Some? && at.Some? then Retained(MarkDeleted(messages, id.value, at.value), at.value) else messages
    case Unsupported => messages
    case Sync(now) => Retained(messages, now)
  }

  // ---------------------------------------------------------------- brute force

  predicate PassesFilters(tools: TextTools, m: Message, f: Filters) {
    && (Given(f.author) ==> m.author == f.author.value)
    && (Given(f.channel) ==> m.channel == f.channel.value)
    && (Timed(f.dateStart) ==> m.createdAt >= f.dateStart.value)
    && (Timed(f.dateEnd) ==> m.createdAt <= f.dateEnd.value)
    && (Given(f.phrase) ==> OccursIn(tools.lower(f.phrase.value), tools.lower(m.text)))
  }

  predicate HasKeyword(tools: TextTools, m: Message, f: Filters) {
    Given(f.keyword) ==> exists t <- tools.tokens(f.keyword.value) :: t in tools.tokens(m.text)
  }

  /** The messages a scan over everything finds for a user with these channels. */
  function BruteForce(tools: TextTools, messages: Messages, allowed: set<string>, f: Filters): set<string> {
    set id | id in messages && messages[id].channel in allowed
             && PassesFilters(tools, messages[id], f) && HasKeyword(tools, messages[id], f)
  }

  /** The live messages a typo-tolerant query may show besides. */
  function Permitted(tools: TextTools, messages: Messages, allowed: set<string>, f: Filters): set<string> {
    set id | id in messages && messages[id].channel in allowed && PassesFilters(tools, messages[id], f)
  }

  /** All of `ids`, each once, best score first. */
  ghost predicate IsRanking(ranked: seq<string>, ids: set<string>, score: string -> real) {
    && (forall id :: id in ranked <==> id in ids)
    && (forall i, j | 0 <= i < j < |ranked| :: ranked[i] != ranked[j])
    && (forall i, j | 0 <= i < j < |ranked| :: score(ranked[i]) >= score(ranked[j]))
  }

  function Page(ranked: seq<string>, page: int, pageSize: int): seq<string>
    requires page >= 1 && pageSize >= 1
  {
    var start := (page - 1) * pageSize;
    if start >= |ranked| then []
    else if start + pageSize >= |ranked| then ranked[start..]
    else ranked[start..start + pageSize]
  }

  datatype QueryError = BadPage | BadPageSize
  datatype SearchPage = SearchPage(total: nat, results: seq<string>)

  method Rank(ids: set<string>, score: string -> real) returns (ranked: seq<string>)
    ensures IsRanking(ranked, ids, score) && |ranked| == |ids|
  {
    ranked := [];
    var todo := ids;
    while todo != {}
      invariant todo <= ids && IsRanking(ranked, ids - todo, score) && |ranked| + |todo| == |ids|
    {
      var id :| id in todo;
      var at := 0;
      while at < |ranked| && score(ranked[at]) >= score(id)
        invariant at <= |ranked| && forall i | 0 <= i < at :: score(ranked[i]) >= score(id)
      {
        at := at + 1;
      }
      InsertKeepsRanking(ranked, ids - todo, score, id, at);
      ranked := Inserted(ranked, at, id);
      assert ids - (todo - {id}) == (ids - todo) + {id};
      todo := todo - {id};
    }
    assert ids - todo == ids;
  }

  function Inserted(ranked: seq<string>, at: nat, id: string): seq<string>
    requires at <= |ranked|
  {
    ranked[..at] + [id] + ranked[at..]
  }

  lemma InsertedPair(ranked: seq<string>, ids: set<string>, score: string -> real, id: string, at: nat, i: nat, j: nat)
    requires IsRanking(ranked, ids, score) && id !in ids && at <= |ranked| && i < j <= |ranked|
    requires forall i | 0 <= i < at :: score(ranked[i]) >= score(id)
    requires at < |ranked| ==> score(ranked[at]) < score(id)
    ensures var r := Inserted(ranked, at, id); r[i] != r[j] && score(r[i]) >= score(r[j])
  {
    if i == at {
      assert ranked[j - 1] in ranked;
      assert at < j - 1 ==> score(ranked[at]) >= score(ranked[j - 1]);
    } else if j == at {
      assert ranked[i] in ranked;
    }
  }

  lemma InsertKeepsRanking(ranked: seq<string>, ids: set<string>, score: string -> real, id: string, at: nat)
    requires IsRanking(ranked, ids, score) && id !in ids && at <= |ranked|
    requires forall i | 0 <= i < at :: score(ranked[i]) >= score(id)
    requires at < |ranked| ==> score(ranked[at]) < score(id)
    ensures IsRanking(Inserted(ranked, at, id), ids + {id}, score)
  {
    var r := Inserted(ranked, at, id);
    forall x ensures x in r <==> x in ids + {id} {
      assert ranked == ranked[..at] + ranked[at..];
    }
    forall i, j | 0 <= i < j < |r|
      ensures r[i] != r[j] && score(r[i]) >= score(r[j])
    {
      InsertedPair(ranked, ids, score, id, at, i, j);
    }
  }

  class MessageIndexPipeline {
    const tools: TextTools
    var messages: Messages
    var inverted: Index
    var channelIndex: Index
    var authorIndex: Index

    constructor (tools: TextTools)
      ensures this.tools == tools && messages == map[] && Valid()
    {
      this.tools := tools;
      messages, inverted, channelIndex, authorIndex := map[], map[], map[], map[];
    }

    /** Every index is the exact inverse of the live messages, without empty buckets. */
    ghost predicate Valid()
      reads this
    {
      && (forall id <- messages :: messages[id].messageId == id)
      && NoEmptyBucket(inverted) && NoEmptyBucket(channelIndex) && NoEmptyBucket(authorIndex)
      && (forall t, id :: Has(inverted, t, id) <==> id in messages && t in tools.tokens(messages[id].text))
      && (forall c, id :: Has(channelIndex, c, id) <==> id in messages && c == messages[id].channel)
      && (forall a, id :: Has(authorIndex, a, id) <==> id in messages && a == messages[id].author)
    }

    method IndexMessage(m: Message)
      modifies this`inverted, this`channelIndex, this`authorIndex
      ensures forall t, id :: Has(inverted, t, id) <==>
                old(Has(inverted, t, id)) || (id == m.messageId && t in tools.tokens(m.text))
      ensures forall c, id :: Has(channelIndex, c, id) <==>
                old(Has(channelIndex, c, id)) || (id == m.messageId && c == m.channel)
      ensures forall a, id :: Has(authorIndex, a, id) <==>
                old(Has(authorIndex, a, id)) || (id == m.messageId && a == m.author)
      ensures old(NoEmptyBucket(inverted) && NoEmptyBucket(channelIndex) && NoEmptyBucket(authorIndex))
              ==> NoEmptyBucket(inverted) && NoEmptyBucket(channelIndex) && NoEmptyBucket(authorIndex)
    {
      var tokens := tools.tokens(m.text);
      for i := 0 to |tokens|
        invariant channelIndex == old(channelIndex) && authorIndex == old(authorIndex)
        invariant old(NoEmptyBucket(inverted)) ==> NoEmptyBucket(inverted)
        invariant forall t, id :: Has(inverted, t, id) <==>
                    old(Has(inverted, t, id)) || (id == m.messageId && t in tokens[..i])
      {
        assert tokens[..i + 1] == tokens[..i] + [tokens[i]];
        inverted := Add(inverted, tokens[i], m.messageId);
      }
      assert tokens[..|tokens|] == tokens;
      channelIndex := Add(channelIndex, m.channel, m.messageId);
      authorIndex := Add(authorIndex, m.author, m.messageId);
    }

    method DeindexMessage(messageId: string, m: Message)
      modifies this`inverted, this`channelIndex, this`authorIndex
      ensures forall t, id :: Has(inverted, t, id) <==>
                old(Has(inverted, t, id)) && !(id == messageId && t in tools.tokens(m.text))
      ensures forall c, id :: Has(channelIndex, c, id) <==>
                old(Has(channelIndex, c, id)) && !(id == messageId && c == m.channel)
      ensures forall a, id :: Has(authorIndex, a, id) <==>
                old(Has(authorIndex, a, id)) && !(id == messageId && a == m.author)
      ensures old(NoEmptyBucket(inverted) && NoEmptyBucket(channelIndex) && NoEmptyBucket(authorIndex))
              ==> NoEmptyBucket(inverted) && NoEmptyBucket(channelIndex) && NoEmptyBucket(authorIndex)
    {
      var tokens := tools.tokens(m.text);
      for i := 0 to |tokens|
        invariant channelIndex == old(channelIndex) && authorIndex == old(authorIndex)
        invariant old(NoEmptyBucket(inverted)) ==> NoEmptyBucket(inverted)
        invariant forall t, id :: Has(inverted, t, id) <==>
                    old(Has(inverted, t, id)) && !(id == messageId && t in tokens[..i])
      {
        assert tokens[..i + 1] == tokens[..i] + [tokens[i]];
        inverted := Discard(inverted, tokens[i], messageId);
      }
      assert tokens[..|tokens|] == tokens;
      channelIndex := Discard(channelIndex, m.channel, messageId);
      authorIndex := Discard(authorIndex, m.author, messageId);
    }

    method Upsert(m: Message)
      requires Valid()
      modifies this
      ensures Valid() && messages == old(messages)[m.messageId := m]
    {
      if m.messageId in messages {
        DeindexMessage(m.messageId, messages[m.messageId]);
      }
      messages := messages[m.messageId := m];
      IndexMessage(m);
    }

    method Remove(id: string)
      requires Valid() && id in messages
      modifies this
      ensures Valid() && messages == old(messages) - {id}
    {
      DeindexMessage(id, messages[id]);
      messages := messages - {id};
    }

    method SyncRetention(now: int) returns (removed: nat)
      requires Valid()
      modifies this
      ensures Valid() && messages == Retained(old(messages), now)
      ensures removed == |old(messages)| - |messages|
    {
      removed := 0;
      var todo := messages.Keys;
      ghost var gone: set<string> := {};
      while todo != {}
        invariant Valid() && todo <= messages.Keys
        invariant gone !! todo && gone <= old(messages).Keys && |gone| == removed
        invariant messages == old(messages) - gone
        invariant forall id <- old(messages) :: id in todo || (id in gone <==> Expired(old(messages)[id], now))
      {
        var id :| id in todo;
        todo := todo - {id};
        if Expired(messages[id], now) {
          Remove(id);
          gone := gone + {id};
          removed := removed + 1;
        }
      }
      assert messages.Keys == old(messages).Keys - gone;
      assert |old(messages).Keys - gone| == |old(messages).Keys| - |gone|;
    }

    /** Applies one change; only malformed and unsupported ones are errors. */
    method ProcessEvent(c: Change) returns (ok: bool)
      requires Valid()
      modifies this
      ensures Valid() && messages == Changed(old(messages), c)
      ensures ok <==> !c.Malformed? && !c.Unsupported?
    {
      ok := true;
      match c {
        case New(m) => Upsert(m);
        case Edit(m) => Upsert(m);
        case Malformed => ok := false;
        case Delete(id, at) =>
          if id.Some? && at.Some? {
            if id.value in messages {
              messages := messages[id.value := messages[id.value].(deletedAt := Some(at.value))];
            }
            var _ := SyncRetention(at.value);
          }
        case Unsupported => ok := false;
        case Sync(now) => var _ := SyncRetention(now);
      }
    }

    method KeywordIds(keyword: string, typoTolerance: bool) returns (ids: set<string>)
      requires Valid()
      ensures ids <= messages.Keys
      ensures forall id <- messages ::
                (exists t <- tools.tokens(keyword) :: t in tools.tokens(messages[id].text)) ==> id in ids
      ensures !typoTolerance ==> forall id <- ids ::
                exists t <- tools.tokens(keyword) :: t in tools.tokens(messages[id].text)
    {
      var tokens := tools.tokens(keyword);
      ids := {};
      for i := 0 to |tokens|
        invariant ids <= messages.Keys
        invariant forall j, id | 0 <= j < i && Has(inverted, tokens[j], id) :: id in ids
        invariant !typoTolerance ==> forall id <- ids :: exists j :: 0 <= j < i && Has(inverted, tokens[j], id)
      {
        BucketIsLive(tokens[i]);
        ids := ids + Bucket(inverted, tokens[i]);
        if typoTolerance {
          var near := tools.near(tokens[i], inverted.Keys);
          while near != {}
            invariant ids <= messages.Keys
            invariant forall j, id | 0 <= j < i + 1 && Has(inverted, tokens[j], id) :: id in ids
          {
            var t :| t in near;
            BucketIsLive(t);
            ids := ids + Bucket(inverted, t);
            near := near - {t};
          }
        }
      }
    }

    lemma BucketIsLive(key: string)
      requires Valid()
      ensures Bucket(inverted, key) <= messages.Keys
    {
      forall id | id in Bucket(inverted, key) ensures id in messages {
        assert Has(inverted, key, id);
      }
    }

    lemma AuthorBucket(author: string)
      requires Valid()
      ensures Bucket(authorIndex, author) == set id | id in messages && messages[id].author == author
    {
      assert forall id :: id in Bucket(authorIndex, author) <==> Has(authorIndex, author, id);
    }

    lemma ChannelBucket(channel: string)
      requires Valid()
      ensures Bucket(channelIndex, channel) == set id | id in messages && messages[id].channel == channel
    {
      assert forall id :: id in Bucket(channelIndex, channel) <==> Has(channelIndex, channel, id);
    }

    method CandidateIds(f: Filters, typoTolerance: bool) returns (ids: set<string>)
      requires Valid()
      ensures forall id <- messages :: HasKeyword(tools, messages[id], f) && PassesFilters(tools, messages[id], f) ==> id in ids
      ensures ids <= messages.Keys
      ensures !typoTolerance ==> forall id <- ids :: HasKeyword(tools, messages[id], f)
    {
      if !Given(f.keyword) && !Given(f.phrase) && !Given(f.author) && !Given(f.channel) {
        return messages.Keys;
      }
      ids := messages.Keys;
      if Given(f.keyword) {
        ids := KeywordIds(f.keyword.value, typoTolerance);
      }
      if Given(f.author) {
        AuthorBucket(f.author.value);
        ids := ids * Bucket(authorIndex, f.author.value);
      }
      if Given(f.channel) {
        ChannelBucket(f.channel.value);
        ids := ids * Bucket(channelIndex, f.channel.value);
      }
      if Given(f.phrase) {
        var phrase := tools.lower(f.phrase.value);
        ids := ids * (set id | id in messages && OccursIn(phrase, tools.lower(messages[id].text)));
      }
    }

    /** Without typo tolerance a query finds exactly the brute-force matches inside the
        user's channels; tolerance only adds live, permitted messages that pass every
        filter but the keyword. */
    method ScopedIds(allowed: set<string>, f: Filters, typoTolerance: bool) returns (ids: set<string>)
      requires Valid()
      ensures !typoTolerance ==> ids == BruteForce(tools, messages, allowed, f)
      ensures BruteForce(tools, messages, allowed, f) <= ids <= Permitted(tools, messages, allowed, f)
      ensures !typoTolerance && f.OnlyDates() && f.dateStart.value != 0 && f.dateEnd.value != 0 ==>
                ids == set id | id in messages && messages[id].channel in allowed
                                && f.dateStart.value <= messages[id].createdAt <= f.dateEnd.value
      ensures !typoTolerance && f.OnlyAuthor() && f.author.value != "" ==>
                ids == set id | id in messages && messages[id].channel in allowed && messages[id].author == f.author.value
      ensures !typoTolerance && f.OnlyChannel() && f.channel.value != "" && f.channel.value in allowed ==>
                ids == set id | id in messages && messages[id].channel == f.channel.value
    {
      var candidates := CandidateIds(f, typoTolerance);
      ids := set id | id in candidates && messages[id].channel in allowed && PassesFilters(tools, messages[id], f);
    }

    method Query(allowed: set<string>, f: Filters, page: int, pageSize: int, typoTolerance: bool, score: string -> real)
      returns (r: Result<SearchPage, QueryError>)
      requires Valid()
      ensures r.Err? <==> page < 1 || pageSize < 1
      ensures r.Ok? ==> exists ids, ranked ::
                && (!typoTolerance ==> ids == BruteForce(tools, messages, allowed, f))
                && BruteForce(tools, messages, allowed, f) <= ids <= Permitted(tools, messages, allowed, f)
                && IsRanking(ranked, ids, score)
                && r.value == SearchPage(|ids|, Page(ranked, page, pageSize))
    {
      if page < 1 { return Err(BadPage); }
      if pageSize < 1 { return Err(BadPageSize); }
      var ids := ScopedIds(allowed, f, typoTolerance);
      var ranked := Rank(ids, score);
      return Ok(SearchPage(|ranked|, Page(ranked, page, pageSize)));
    }
  }

  // ---------------------------------------------------------------------- runs

  function ChangedAll(messages: Messages, changes: seq<Change>): Messages {
    if changes == [] then messages
    else Changed(ChangedAll(messages, changes[..|changes| - 1]), changes[|changes| - 1])
  }

  /** Any run of changes leaves the indexes exact. */
  method RunChanges(index: MessageIndexPipeline, changes: seq<Change>)
    requires index.Valid()
    modifies index
    ensures index.Valid() && index.messages == ChangedAll(old(index.messages), changes)
  {
    for i := 0 to |changes|
      invariant index.Valid() && index.messages == ChangedAll(old(index.messages), changes[..i])
    {
      var _ := index.ProcessEvent(changes[i]);
      assert changes[..i + 1][..i] == changes[..i];
    }
    assert changes[..|changes|] == changes;
  }

  /** The pages of one ranking, in order, are that ranking. */
  function Pages(ranked: seq<string>, count: nat, pageSize: int): seq<string>
    requires pageSize >= 1
  {
    if count == 0 then [] else Pages(ranked, count - 1, pageSize) + Page(ranked, count, pageSize)
  }

  lemma {:induction false} PagesCoverRanking(ranked: seq<string>, count: nat, pageSize: int)
    requires pageSize >= 1
    ensures count * pageSize <= |ranked| ==> Pages(ranked, count, pageSize) == ranked[..count * pageSize]
    ensures count * pageSize > |ranked| ==> Pages(ranked, count, pageSize) == ranked
  {
    if count > 0 {
      PagesCoverRanking(ranked, count - 1, pageSize);
      assert (count - 1) * pageSize + pageSize == count * pageSize;
    }
  }

  // ------------------------------------------------------------ in message fields

  /** The phrase stands somewhere in the text. */
  ghost predicate Contains(text: string, phrase: string) {
    exists before, after :: text == before + phrase + after
  }

  /** What a scan finds, filter by filter; an absent, empty or zero filter asks for nothing. */
  lemma ScanFindsIff(tools: TextTools, messages: Messages, allowed: set<string>, f: Filters, id: string)
    ensures id in Permitted(tools, messages, allowed, f) <==>
            && id in messages && messages[id].channel in allowed
            && (f.author.None? || f.author.value == "" || messages[id].author == f.author.value)
            && (f.channel.None? || f.channel.value == "" || messages[id].channel == f.channel.value)
            && (f.dateStart.None? || f.dateStart.value == 0 || f.dateStart.value <= messages[id].createdAt)
            && (f.dateEnd.None? || f.dateEnd.value == 0 || messages[id].createdAt <= f.dateEnd.value)
            && (f.phrase.None? || f.phrase.value == "" || Contains(tools.lower(messages[id].text), tools.lower(f.phrase.value)))
    ensures id in BruteForce(tools, messages, allowed, f) <==>
            && id in Permitted(tools, messages, allowed, f)
            && (f.keyword.None? || f.keyword.value == ""
                || exists t :: t in tools.tokens(f.keyword.value) && t in tools.tokens(messages[id].text))
  {
    if id in messages && f.phrase.Some? { ContainsIs(tools.lower(messages[id].text), tools.lower(f.phrase.value)); }
  }

  lemma ContainsIs(text: string, phrase: string)
    ensures Contains(text, phrase) <==> OccursIn(phrase, text)
  {
    if OccursIn(phrase, text) {
      var i :| 0 <= i <= |text| && OccursAt(phrase, text, i);
      assert text == text[..i] + phrase + text[i + |phrase|..];
    }
    if Contains(text, phrase) {
      var before, after :| text == before + phrase + after;
      assert OccursAt(phrase, text, |before|);
    }
  }

  /** The time has come: it is given, is not zero, and is not in the future. */
  predicate HasCome(t: Option<int>, now: int) { t.Some? && t.value != 0 && t.value <= now }

  /** A sync drops a message when its deletion or the end of its retention has come, and leaves
      the others as they are. */
  lemma SyncKeepsIff(messages: Messages, now: int, id: string)
    ensures id in Changed(messages, Sync(now)) <==>
            id in messages && !HasCome(messages[id].deletedAt, now) && !HasCome(messages[id].retentionUntil, now)
    ensures id in Changed(messages, Sync(now)) ==> Changed(messages, Sync(now))[id] == messages[id]
  {}

  /** A deletion takes its message out of the live ones at once, unless it is stamped zero. */
  lemma DeletedIsGone(messages: Messages, id: string, at: int)
    requires at != 0
    ensures id !in Changed(messages, Delete(Some(id), Some(at)))
    ensures forall other :: other != id ==>
              (other in Changed(messages, Delete(Some(id), Some(at))) <==> other in Changed(messages, Sync(at)))
    ensures forall other :: other in Changed(messages, Delete(Some(id), Some(at))) ==>
              Changed(messages, Delete(Some(id), Some(at)))[other] == messages[other]
  {}

  /** Stamped zero it removes nothing by itself. */
  lemma DeletionAtZero(messages: Messages, id: string)
    ensures id in Changed(messages, Delete(Some(id), Some(0))) <==>
            id in messages && !HasCome(messages[id].retentionUntil, 0)
  {}

  /** A new or edited message is live as it was sent, whatever its id held before; every other
      stays. A deletion without an id or a time, and what cannot be read, change nothing. */
  lemma LatestTextIsLive(messages: Messages, m: Message, other: string)
    ensures m.messageId in Changed(messages, New(m)) && Changed(messages, New(m))[m.messageId] == m
    ensures Changed(messages, Edit(m)) == Changed(messages, New(m))
    ensures other != m.messageId ==> (other in Changed(messages, New(m)) <==> other in messages)
    ensures other != m.messageId && other in messages ==> Changed(messages, New(m))[other] == messages[other]
    ensures Changed(messages, Malformed) == Changed(messages, Unsupported) == messages
    ensures Changed(messages, Delete(None, None)) == messages && Changed(messages, Delete(Some(other), None)) == messages
    ensures Changed(messages, Delete(None, Some(m.createdAt))) == messages
  {}
}
