/**
  Activity descriptions written by the `save_*` methods of `LearningService`,
  and `get_recent_activities`: the stored activity log when it has rows,
  otherwise a merge of the latest chats, grammar checks and vocabulary
  checks, newest first, cut to the requested length.

  Timestamps are the display stamps `_format_datetime` produces
  (`YYYY-MM-DD HH:MM`), represented by their minute count, an order-preserving
  encoding of the strings the source sorts.
 */
module Activities {
  import opened Wrappers

  const DescriptionLength: nat := 50
  const Ellipsis: string := "..."
  const ChatPrefix: string := "AI와의 영어 학습 대화: "
  const GrammarPrefix: string := "문법 검사 완료: "
  const VocabularyPrefix: string := "어휘 분석 완료: "

  /** `f"{prefix}{text[:50]}..."`. */
  function Describe(prefix: string, text: string): (r: string)
    ensures |r| == |prefix| + (if |text| < DescriptionLength then |text| else DescriptionLength) + |Ellipsis|
    ensures r[..|prefix|] == prefix
    ensures r[|r| - |Ellipsis|..] == Ellipsis
    ensures |text| <= DescriptionLength ==> r[|prefix|..|r| - |Ellipsis|] == text
    ensures |text| > DescriptionLength ==> r[|prefix|..|r| - |Ellipsis|] == text[..DescriptionLength]
  {
    var kept := if |text| < DescriptionLength then text else text[..DescriptionLength];
    prefix + kept + Ellipsis
  }

  /** Reads the quoted text back out of a description. */
  function Quoted(prefix: string, description: string): string
    requires |prefix| + |Ellipsis| <= |description|
  {
    description[|prefix|..|description| - |Ellipsis|]
  }

  /** A description keeps the first fifty characters of the text, and so
      determines a text of at most fifty characters completely. */
  lemma DescriptionKeepsFirstFifty(prefix: string, text: string)
    ensures Quoted(prefix, Describe(prefix, text)) == if |text| <= DescriptionLength then text else text[..DescriptionLength]
  {
  }

  /** Two texts get the same description exactly when they agree on their first fifty characters. */
  lemma SameDescriptionIffSameFirstFifty(prefix: string, a: string, b: string)
    ensures Describe(prefix, a) == Describe(prefix, b) <==>
      (if |a| < DescriptionLength then a else a[..DescriptionLength]) == (if |b| < DescriptionLength then b else b[..DescriptionLength])
  {
    if Describe(prefix, a) == Describe(prefix, b) {
      DescriptionKeepsFirstFifty(prefix, a);
      DescriptionKeepsFirstFifty(prefix, b);
    }
  }

  datatype Metadata = Stored(json: Option<string>) | FromTable(source: string)

  datatype Activity = Activity(kind: string, description: string, createdAt: int, metadata: Metadata)

  /** A row of the activity log. */
  datatype ActivityRow = ActivityRow(kind: string, description: string, createdAt: int, metadata: Option<string>)

  /** A row of the chat, grammar or vocabulary table: its text and its time. */
  datatype TextRow = TextRow(text: string, createdAt: int)

  /** A query's answer: its rows, or the exception it raised. */
  datatype Query<T> = Rows(rows: seq<T>) | Raised

  datatype Sources = Sources(
    log: Query<ActivityRow>,
    chats: Query<TextRow>,
    grammarChecks: Query<TextRow>,
    vocabularyChecks: Query<TextRow>)

  /** The single placeholder activity returned when a query fails. */
  const Placeholder: Activity := Activity("system", "학습 활동을 불러오는 중입니다...", 0, FromTable("fallback"))

  function FromLog(row: ActivityRow): Activity {
    Activity(row.kind, row.description, row.createdAt, Stored(row.metadata))
  }

  /** Turns the rows of one table into activities of one kind. */
  function FromRows(rows: seq<TextRow>, kind: string, prefix: string, source: string): (r: seq<Activity>)
    ensures |r| == |rows|
    ensures forall i :: 0 <= i < |rows| ==>
      r[i] == Activity(kind, Describe(prefix, rows[i].text), rows[i].createdAt, FromTable(source))
  {
    if |rows| == 0 then [] else [Activity(kind, Describe(prefix, rows[0].text), rows[0].createdAt, FromTable(source))] + FromRows(rows[1..], kind, prefix, source)
  }

  /** Newest first. */
  predicate SortedNewestFirst(s: seq<Activity>) {
    forall i, j :: 0 <= i < j < |s| ==> s[i].createdAt >= s[j].createdAt
  }

  /** Places `a` before the first element that is not newer than it. */
  function Insert(a: Activity, s: seq<Activity>): (r: seq<Activity>)
    requires SortedNewestFirst(s)
    ensures SortedNewestFirst(r)
    ensures multiset(r) == multiset(s) + multiset{a}
    ensures |r| == |s| + 1
    ensures r[0] == a || (|s| > 0 && r[0] == s[0])
  {
    if |s| == 0 then [a]
    else if a.createdAt >= s[0].createdAt then [a] + s
    else
      var rest := Insert(a, s[1..]);
      assert rest[0].createdAt <= s[0].createdAt;
      assert s == [s[0]] + s[1..];
      [s[0]] + rest
  }

  /** `list.sort(key=created_at, reverse=True)`. */
  function SortNewestFirst(s: seq<Activity>): (r: seq<Activity>)
    ensures SortedNewestFirst(r)
    ensures multiset(r) == multiset(s)
    ensures |r| == |s|
  {
    if |s| == 0 then []
    else
      assert s == [s[0]] + s[1..];
      Insert(s[0], SortNewestFirst(s[1..]))
  }

  /** The activities stamped with minute `t`, in order. */
  function StampedAt(s: seq<Activity>, t: int): (r: seq<Activity>)
    ensures forall i :: 0 <= i < |r| ==> r[i].createdAt == t
  {
    if |s| == 0 then []
    else if s[0].createdAt == t then [s[0]] + StampedAt(s[1..], t)
    else StampedAt(s[1..], t)
  }

  lemma {:induction false} StampedAtOfSorted(a: Activity, s: seq<Activity>, t: int)
    requires SortedNewestFirst(s)
    ensures StampedAt(Insert(a, s), t) == if a.createdAt == t then [a] + StampedAt(s, t) else StampedAt(s, t)
    decreases |s|
  {
    if |s| > 0 && a.createdAt < s[0].createdAt {
      StampedAtOfSorted(a, s[1..], t);
      assert Insert(a, s) == [s[0]] + Insert(a, s[1..]);
      assert [s[0]] + Insert(a, s[1..]) == [s[0]] + Insert(a, s[1..]);
      assert (([s[0]] + Insert(a, s[1..]))[1..]) == Insert(a, s[1..]);
    } else if |s| > 0 {
      assert ([a] + s)[1..] == s;
    }
  }

  /** The sort is stable: activities with the same stamp keep the order of the merged list. */
  lemma {:induction false} SortIsStable(s: seq<Activity>, t: int)
    ensures StampedAt(SortNewestFirst(s), t) == StampedAt(s, t)
    decreases |s|
  {
    if |s| > 0 {
      SortIsStable(s[1..], t);
      StampedAtOfSorted(s[0], SortNewestFirst(s[1..]), t);
    }
  }

  /** The merged fallback list, before sorting: the chats, then the grammar
      checks, then the vocabulary checks, each described by its own prefix. */
  function Merged(chats: seq<TextRow>, grammarChecks: seq<TextRow>, vocabularyChecks: seq<TextRow>): (r: seq<Activity>)
    ensures |r| == |chats| + |grammarChecks| + |vocabularyChecks|
    ensures forall i :: 0 <= i < |chats| ==>
      r[i] == Activity("chat", Describe(ChatPrefix, chats[i].text), chats[i].createdAt, FromTable("chat_messages"))
    ensures forall i :: 0 <= i < |grammarChecks| ==>
      r[|chats| + i] == Activity("grammar_check", Describe(GrammarPrefix, grammarChecks[i].text), grammarChecks[i].createdAt, FromTable("grammar_checks"))
    ensures forall i :: 0 <= i < |vocabularyChecks| ==>
      r[|chats| + |grammarChecks| + i]
        == Activity("vocabulary_check", Describe(VocabularyPrefix, vocabularyChecks[i].text), vocabularyChecks[i].createdAt, FromTable("vocabulary_checks"))
  {
    FromRows(chats, "chat", ChatPrefix, "chat_messages")
      + FromRows(grammarChecks, "grammar_check", GrammarPrefix, "grammar_checks")
      + FromRows(vocabularyChecks, "vocabulary_check", VocabularyPrefix, "vocabulary_checks")
  }

  /** The stored activity log, row by row. */
  function FromLogRows(rows: seq<ActivityRow>): (r: seq<Activity>)
    ensures |r| == |rows|
    ensures forall i :: 0 <= i < |rows| ==> r[i] == FromLog(rows[i])
  {
    if |rows| == 0 then [] else [FromLog(rows[0])] + FromLogRows(rows[1..])
  }

  /** `s[:limit]` for a non-negative limit. */
  function Take(s: seq<Activity>, limit: nat): (r: seq<Activity>)
    ensures |r| == if limit < |s| then limit else |s|
    ensures r == s[..|r|]
    ensures multiset(r) <= multiset(s)
  {
    var r := if limit < |s| then s[..limit] else s;
    assert s == r + s[|r|..];
    r
  }

  /** The `limit` newest activities of `s`: a newest-first selection from
      `s`, as long as the limit allows, and nothing left out is newer than
      anything kept. */
  function Latest(s: seq<Activity>, limit: nat): (r: seq<Activity>)
    ensures SortedNewestFirst(r)
    ensures |r| == if limit < |s| then limit else |s|
    ensures multiset(r) <= multiset(s)
    ensures r == SortNewestFirst(s)[..|r|]
    ensures forall i, j :: 0 <= i < |r| <= j < |s| ==> SortNewestFirst(s)[j].createdAt <= r[i].createdAt
  {
    Take(SortNewestFirst(s), limit)
  }

  /** `get_recent_activities(user_id, limit)`. A negative limit makes the
      first `LIMIT` query raise, as PostgreSQL rejects it. */
  function RecentActivities(src: Sources, limit: int): (r: seq<Activity>)
    ensures limit < 0 || src.log.Raised? ==> r == [Placeholder]
    ensures limit >= 0 && src.log.Rows? && |src.log.rows| > 0 ==>
      |r| == |src.log.rows| && forall i :: 0 <= i < |r| ==> r[i] == FromLog(src.log.rows[i])
    ensures limit >= 0 && src.log == Rows([]) && (src.chats.Raised? || src.grammarChecks.Raised? || src.vocabularyChecks.Raised?)
      ==> r == [Placeholder]
    ensures limit >= 0 && src.log == Rows([]) && src.chats.Rows? && src.grammarChecks.Rows? && src.vocabularyChecks.Rows?
      ==> r == Latest(Merged(src.chats.rows, src.grammarChecks.rows, src.vocabularyChecks.rows), limit)
  {
    if limit < 0 then [Placeholder]
    else match src.log
      case Raised => [Placeholder]
      case Rows(log) =>
        if |log| > 0 then FromLogRows(log)
        else match (src.chats, src.grammarChecks, src.vocabularyChecks)
          case (Rows(c), Rows(g), Rows(v)) => Latest(Merged(c, g, v), limit)
          case _ => [Placeholder]
  }
}
