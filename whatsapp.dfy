/** The pure parts of the WhatsApp API client (`WhatsAppClient`): the normalisation of a raw
    message dictionary, the `is_group` filter of the conversation list, and the merge of the
    messages of several groups into one list, newest first.

    The HTTP requests are not modelled: what `get_group_messages` and `get_groups_list` fetch
    is an input. The local-time conversion of `datetime.fromtimestamp` is a parameter. */
module WhatsApp {
  import opened Options
  import opened Timestamps
  import opened Sorting
  import Seqs
  import Text

  /** A value decoded by `response.json()`; `Null` is also Python's `None`. */
  datatype Json =
    | Null
    | Bool(b: bool)
    | Int(n: int)
    | Str(s: string)
    | Arr(items: seq<Json>)
    | Obj(fields: map<string, Json>)

  /** `d.get(key, default)`. */
  function Get(d: map<string, Json>, key: string, default: Json): (v: Json)
    ensures key in d ==> v == d[key]
    ensures key !in d ==> v == default
  {
    if key in d then d[key] else default
  }

  /** Python's truth value of a decoded value. */
  predicate Truthy(v: Json)
  {
    match v
    case Null => false
    case Bool(b) => b
    case Int(n) => n != 0
    case Str(s) => s != []
    case Arr(items) => items != []
    case Obj(fields) => fields != map[]
  }

  // ---------------------------------------------------------------- int()

  predicate AllDigits(s: string)
  {
    forall i :: 0 <= i < |s| ==> IsDigit(s[i])
  }

  /** The value of a run of decimal digits, the most significant first. */
  function DigitsValue(s: string): nat
    requires AllDigits(s)
  {
    if s == [] then 0 else DigitsValue(s[..|s| - 1]) * 10 + DigitValue(s[|s| - 1])
  }

  /** `int(s)` for a str: surrounding whitespace, an optional sign and at least one decimal
      digit; `None` is the `ValueError` for any other text. */
  function ParseInt(s: string): (r: Option<int>)
  {
    var t := Text.Strip(s);
    var signed := t != [] && (t[0] == '-' || t[0] == '+');
    var digits := if signed then t[1..] else t;
    if digits == [] || !AllDigits(digits) then None
    else if signed && t[0] == '-' then Some(0 - DigitsValue(digits))
    else Some(DigitsValue(digits))
  }

  /** `str(n)` of an integer. */
  function IntText(n: int): (r: string)
  {
    if n < 0 then "-" + Text.NatToString(-n) else Text.NatToString(n)
  }

  /** `int(v)` of a decoded value; `None` is the `TypeError` or `ValueError` it raises. A bool
      is an int in Python, so `int(True)` is 1. */
  function ToInt(v: Json): (r: Option<int>)
    ensures v.Int? ==> r == Some(v.n)
  {
    match v
    case Int(n) => Some(n)
    case Bool(b) => Some(if b then 1 else 0)
    case Str(s) => ParseInt(s)
    case _ => None
  }

  // ---------------------------------------------------------------- process_message

  /** `datetime.fromtimestamp` in the local time zone: the local date-time of a count of
      seconds since the epoch, or `None` for the `OverflowError` or `OSError` of a count the
      platform cannot convert. */
  type LocalClock = int -> Option<Instant>

  /** The dictionary `process_message` returns; a missing key is `Null`. */
  datatype Message = Message(
    messageId: Json,   // "message_id"
    author: Json,      // "author"
    text: Json,        // "text"
    timestamp: string, // "timestamp", in `isoformat()`
    msgType: Json,     // "type"
    fromPhone: Json,   // "from_phone"
    toPhone: Json)     // "to_phone"

  /** `process_message`; `None` is the exception it raises: for a message that is not a
      dictionary, a "text" that is not a dictionary, a timestamp `int()` rejects, or a count
      of seconds the clock cannot convert. */
  function ProcessMessage(local: LocalClock, raw: Json): Option<Message>
  {
    if !raw.Obj? then None
    else
      var f := raw.fields;
      var text := Get(f, "text", Obj(map[]));
      if !text.Obj? then None
      else match ToInt(Get(f, "timestamp", Int(0)))
        case None => None
        case Some(secs) =>
          match local(secs)
          case None => None
          case Some(t) =>
            Some(Message(Get(f, "id", Null), Get(f, "author", Str("Unknown")),
                         Get(text.fields, "body", Str("")), IsoFormat(t),
                         Get(f, "type", Str("text")), Get(f, "from", Null), Get(f, "to", Null)))
  }

  /** The raw dictionary of a well-formed API message. */
  function RawMessage(id: string, author: string, body: string, secs: int, msgType: string,
                      from: string, to: string): (raw: Json)
    ensures raw.Obj?
  {
    Obj(map["id" := Str(id), "from" := Str(from), "to" := Str(to),
            "text" := Obj(map["body" := Str(body)]), "timestamp" := Str(IntText(secs)),
            "author" := Str(author), "type" := Str(msgType)])
  }

  // ---------------------------------------------------------------- get_groups_list

  /** `conv.get("is_group", False)` taken as a truth value. */
  predicate IsGroup(conv: Json)
  {
    conv.Obj? && Truthy(Get(conv.fields, "is_group", Bool(false)))
  }

  predicate AllObjects(s: seq<Json>)
  {
    forall i :: 0 <= i < |s| ==> s[i].Obj?
  }

  /** The filter of `get_groups_list` over the fetched conversations. A conversation that is
      not a dictionary makes `conv.get` raise, and the list stays empty. */
  function GroupsList(conversations: seq<Json>): seq<Json>
  {
    if AllObjects(conversations) then Seqs.Filter(IsGroup, conversations) else []
  }

  // ---------------------------------------------------------------- get_messages_from_multiple_groups

  /** What `get_group_messages` returns for a group id; it never raises. */
  type Fetch = string -> seq<Json>

  /** `process_message` as a function value, for a given clock. */
  function Processor(local: LocalClock): Json -> Option<Message>
  {
    raw => ProcessMessage(local, raw)
  }

  /** The processed messages of one group, or `None` when one of them raises and the group is
      skipped. */
  function GroupBatch(local: LocalClock, raws: seq<Json>): (r: Option<seq<Message>>)
  {
    var f := Processor(local);
    if Seqs.FirstNone(f, raws, 0) < |raws| then None else Some(Seqs.Values(f, raws, |raws|))
  }

  /** What one group adds to the list. */
  function Contribution(fetch: Fetch, local: LocalClock, group: string): seq<Message>
  {
    match GroupBatch(local, fetch(group))
    case None => []
    case Some(ms) => ms
  }

  /** `Contribution` as a function value, for a given fetch and clock. */
  function Contributor(fetch: Fetch, local: LocalClock): string -> seq<Message>
  {
    g => Contribution(fetch, local, g)
  }

  /** The list `all_messages` before the sort: the contributions in group-id order. */
  function Gathered(fetch: Fetch, local: LocalClock, groups: seq<string>): seq<Message>
  {
    Seqs.FlatMap(Contributor(fetch, local), groups)
  }

  /** The sort key order of `sort(key=timestamp, reverse=True)`: `a` may come before `b` when
      its timestamp is not smaller. */
  predicate Later(a: Message, b: Message)
  {
    LexLe(b.timestamp, a.timestamp)
  }

  /** The list `get_messages_from_multiple_groups` returns. */
  function Merged(fetch: Fetch, local: LocalClock, groups: seq<string>): seq<Message>
  {
    SortBy(Gathered(fetch, local, groups), Later)
  }

  /** `get_messages_from_multiple_groups`: the loop that extends the list with the processed
      messages of each group in turn, skipping a group whose processing raises, and the
      stable sort, newest first, that ends it. */
  method MergeGroups(fetch: Fetch, local: LocalClock, groups: seq<string>) returns (all: seq<Message>)
    ensures all == Merged(fetch, local, groups)
  {
    all := [];
    for i := 0 to |groups|
      invariant all == Gathered(fetch, local, groups[..i])
    {
      var processed, stop := Seqs.CollectUntilNone(Processor(local), fetch(groups[i]));
      if stop == |fetch(groups[i])| {
        all := all + processed;
      }
      assert groups[..i + 1][..i] == groups[..i];
    }
    assert groups[..|groups|] == groups;
    all := SortBy(all, Later);
  }

  // ---------------------------------------------------------------- properties of int()

  lemma {:induction false} DigitsOfNat(n: nat)
    ensures AllDigits(Text.NatToString(n)) && DigitsValue(Text.NatToString(n)) == n
  {
    var s := Text.NatToString(n);
    if n >= 10 {
      DigitsOfNat(n / 10);
      assert s[..|s| - 1] == Text.NatToString(n / 10);
    }
  }

  /** `int(str(n)) == n`. */
  lemma ParseIntText(n: int)
    ensures ParseInt(IntText(n)) == Some(n)
  {
    var s := IntText(n);
    DigitsOfNat(if n < 0 then -n else n);
    assert !Text.IsSpace(s[0]) && !Text.IsSpace(s[|s| - 1]);
    assert Text.Strip(s) == s;
    if n < 0 {
      assert s[1..] == Text.NatToString(-n);
    }
  }

  /** Text that is not an optional sign followed by digits, once stripped, is rejected. */
  lemma ParseIntRejects(s: string)
    requires var t := Text.Strip(s); t == [] || (!AllDigits(t) && !AllDigits(t[1..]))
    ensures ParseInt(s).None?
  {
  }

  // ---------------------------------------------------------------- properties of process_message

  /** The defaults of `process_message`: "Unknown" for a missing author, the text body or ""
      when either the text or its body is missing, "text" for a missing type, and `None` for a
      missing id, sender or recipient; the fields present are copied unchanged. */
  lemma ProcessMessageDefaults(local: LocalClock, raw: Json)
    requires ProcessMessage(local, raw).Some?
    ensures var m := ProcessMessage(local, raw).value; var f := raw.fields;
      && ("author" !in f ==> m.author == Str("Unknown"))
      && ("author" in f ==> m.author == f["author"])
      && ("text" !in f ==> m.text == Str(""))
      && ("text" in f && "body" !in f["text"].fields ==> m.text == Str(""))
      && ("text" in f && "body" in f["text"].fields ==> m.text == f["text"].fields["body"])
      && ("type" !in f ==> m.msgType == Str("text"))
      && ("type" in f ==> m.msgType == f["type"])
      && m.messageId == (if "id" in f then f["id"] else Null)
      && m.fromPhone == (if "from" in f then f["from"] else Null)
      && m.toPhone == (if "to" in f then f["to"] else Null)
  {
  }

  /** A message without a timestamp is dated by second 0 of the epoch. */
  lemma MissingTimestampIsEpoch(local: LocalClock, raw: Json)
    requires raw.Obj? && "timestamp" !in raw.fields && !("text" in raw.fields && !raw.fields["text"].Obj?)
    ensures ProcessMessage(local, raw) == ProcessMessage(local, Obj(raw.fields["timestamp" := Int(0)]))
    ensures local(0).Some? ==> ProcessMessage(local, raw).value.timestamp == IsoFormat(local(0).value)
  {
    var g := raw.fields["timestamp" := Int(0)];
    assert Get(g, "text", Obj(map[])) == Get(raw.fields, "text", Obj(map[]));
    assert forall k :: k != "timestamp" ==> Get(g, k, Null) == Get(raw.fields, k, Null);
    assert Get(g, "author", Str("Unknown")) == Get(raw.fields, "author", Str("Unknown"));
    assert Get(g, "type", Str("text")) == Get(raw.fields, "type", Str("text"));
  }

  /** Each way `process_message` raises: a message that is not a dictionary, a "text" that is
      not a dictionary, a timestamp text that is not an integer, a time the clock rejects. */
  lemma ProcessMessageFailures(local: LocalClock, raw: Json)
    ensures !raw.Obj? ==> ProcessMessage(local, raw).None?
    ensures raw.Obj? && "text" in raw.fields && !raw.fields["text"].Obj? ==> ProcessMessage(local, raw).None?
    ensures (raw.Obj? && "timestamp" in raw.fields && raw.fields["timestamp"].Str?
             && ParseInt(raw.fields["timestamp"].s).None?) ==> ProcessMessage(local, raw).None?
    ensures raw.Obj? && "timestamp" in raw.fields && raw.fields["timestamp"].Null? ==> ProcessMessage(local, raw).None?
    ensures (raw.Obj? && "timestamp" in raw.fields && raw.fields["timestamp"].Int?
             && local(raw.fields["timestamp"].n).None?) ==> ProcessMessage(local, raw).None?
  {
  }

  /** A well-formed API message raises only when the clock rejects its seconds. */
  lemma ProcessRawMessageFails(local: LocalClock, id: string, author: string, body: string, secs: int,
                               msgType: string, from: string, to: string)
    ensures ProcessMessage(local, RawMessage(id, author, body, secs, msgType, from, to)).Some?
            <==> local(secs).Some?
  {
    ParseIntText(secs);
  }

  /** A well-formed API message comes through with its own fields, and its timestamp is the
      local time of its seconds. */
  lemma ProcessRawMessage(local: LocalClock, id: string, author: string, body: string, secs: int,
                          msgType: string, from: string, to: string)
    requires local(secs).Some?
    ensures ProcessMessage(local, RawMessage(id, author, body, secs, msgType, from, to))
         == Some(Message(Str(id), Str(author), Str(body), IsoFormat(local(secs).value),
                         Str(msgType), Str(from), Str(to)))
  {
    ParseIntText(secs);
    RawMessageFields(id, author, body, secs, msgType, from, to);
  }

  lemma RawMessageFields(id: string, author: string, body: string, secs: int, msgType: string,
                         from: string, to: string)
    ensures var f := RawMessage(id, author, body, secs, msgType, from, to).fields;
      && Get(f, "id", Null) == Str(id)
      && Get(f, "author", Str("Unknown")) == Str(author)
      && Get(f, "text", Obj(map[])) == Obj(map["body" := Str(body)])
      && Get(f, "timestamp", Int(0)) == Str(IntText(secs))
      && Get(f, "type", Str("text")) == Str(msgType)
      && Get(f, "from", Null) == Str(from)
      && Get(f, "to", Null) == Str(to)
  {
  }

  /** The timestamp of a processed message is one `datetime.fromisoformat` reads back as the
      same local time, so the message processor can date it. */
  lemma ProcessedTimestampParses(local: LocalClock, raw: Json)
    requires ProcessMessage(local, raw).Some?
    ensures var t := local(ToInt(Get(raw.fields, "timestamp", Int(0))).value);
      t.Some? && var d: DateTime := t.value; ParseIso(ProcessMessage(local, raw).value.timestamp) == Some(d)
  {
    var t := local(ToInt(Get(raw.fields, "timestamp", Int(0))).value).value;
    ParseIsoFormat(t);
  }

  // ---------------------------------------------------------------- properties of get_groups_list

  /** The list keeps exactly the dictionaries whose `is_group` is truthy, each as often as it
      occurs, unless one conversation is not a dictionary, when it is empty. */
  lemma GroupsListSpec(conversations: seq<Json>)
    ensures var r := GroupsList(conversations);
      && |r| <= |conversations|
      && (AllObjects(conversations) ==>
            forall c :: (c in r <==> c in conversations && Truthy(Get(c.fields, "is_group", Bool(false))))
                     && Seqs.Count(r, c) == (if IsGroup(c) then Seqs.Count(conversations, c) else 0))
      && (!AllObjects(conversations) ==> r == [])
  {
    if AllObjects(conversations) {
      Seqs.FilterSpec(IsGroup, conversations);
      forall c ensures Seqs.Count(Seqs.Filter(IsGroup, conversations), c)
                       == (if IsGroup(c) then Seqs.Count(conversations, c) else 0) {
        Seqs.FilterCount(IsGroup, conversations, c);
      }
    }
  }

  /** The filter keeps the original order: concatenated conversation lists give the
      concatenated group lists. */
  lemma GroupsListAppend(a: seq<Json>, b: seq<Json>)
    requires AllObjects(a + b)
    ensures GroupsList(a + b) == GroupsList(a) + GroupsList(b)
  {
    assert AllObjects(a) by {
      forall i | 0 <= i < |a| ensures a[i].Obj? { assert a[i] == (a + b)[i]; }
    }
    assert AllObjects(b) by {
      forall i | 0 <= i < |b| ensures b[i].Obj? { assert b[i] == (a + b)[|a| + i]; }
    }
    Seqs.FilterAppend(IsGroup, a, b);
  }

  // ---------------------------------------------------------------- properties of the merge

  /** A group's batch is the processed list of all its messages when none raises, and nothing
      otherwise. */
  lemma GroupBatchSpec(local: LocalClock, raws: seq<Json>)
    ensures var r := GroupBatch(local, raws);
      && (r.Some? <==> forall i :: 0 <= i < |raws| ==> ProcessMessage(local, raws[i]).Some?)
      && (r.Some? ==> |r.value| == |raws|
                      && forall i :: 0 <= i < |raws| ==> r.value[i] == ProcessMessage(local, raws[i]).value)
  {
    var f := Processor(local);
    var k := Seqs.FirstNone(f, raws, 0);
    if k < |raws| {
      assert ProcessMessage(local, raws[k]).None?;
    }
  }

  /** The groups contribute independently and in order: the list gathered for two runs of
      group ids is the concatenation of the lists gathered for each. */
  lemma GatheredAppend(fetch: Fetch, local: LocalClock, a: seq<string>, b: seq<string>)
    ensures Gathered(fetch, local, a + b) == Gathered(fetch, local, a) + Gathered(fetch, local, b)
  {
    Seqs.FlatMapAppend(Contributor(fetch, local), a, b);
  }

  /** A group whose processing raises contributes no message, and the groups after it are
      still processed. */
  lemma FailingGroupSkipped(fetch: Fetch, local: LocalClock, before: seq<string>, g: string, after: seq<string>)
    requires GroupBatch(local, fetch(g)).None?
    ensures Gathered(fetch, local, before + [g] + after) == Gathered(fetch, local, before) + Gathered(fetch, local, after)
  {
    GatheredAppend(fetch, local, before + [g], after);
    GatheredAppend(fetch, local, before, [g]);
    Seqs.FlatMapSingle(Contributor(fetch, local), g);
  }

  /** The merged list holds exactly the gathered messages, newest first. */
  lemma MergedSpec(fetch: Fetch, local: LocalClock, groups: seq<string>)
    ensures var m := Merged(fetch, local, groups);
      && multiset(m) == multiset(Gathered(fetch, local, groups))
      && forall i, j :: 0 <= i < j < |m| ==> LexLe(m[j].timestamp, m[i].timestamp)
  {
    LaterOrder();
    SortByPermutes(Gathered(fetch, local, groups), Later);
    SortBySorted(Gathered(fetch, local, groups), Later);
  }

  /** The sort is stable even with `reverse=True`: the messages that share a timestamp keep
      the order in which they were gathered. */
  lemma MergedStable(fetch: Fetch, local: LocalClock, groups: seq<string>, stamp: string)
    ensures Seqs.Filter(StampIs(stamp), Merged(fetch, local, groups))
         == Seqs.Filter(StampIs(stamp), Gathered(fetch, local, groups))
  {
    var g := Gathered(fetch, local, groups);
    var z := Message(Null, Null, Null, stamp, Null, Null, Null);
    LaterOrder();
    SortByStable(g, z, Later);
    TiesAreSameStamp(g, z);
    TiesAreSameStamp(SortBy(g, Later), z);
  }

  /** Whether a message carries the given timestamp. */
  function StampIs(stamp: string): Message -> bool
  {
    (m: Message) => m.timestamp == stamp
  }

  lemma LaterOrder()
    ensures Total(Later) && Transitive(Later)
  {
    forall a, b ensures Later(a, b) || Later(b, a) {
      LexLeTotal(a.timestamp, b.timestamp);
    }
    forall a, b, c | Later(a, b) && Later(b, c) ensures Later(a, c) {
      LexLeTransitive(c.timestamp, b.timestamp, a.timestamp);
    }
  }

  /** Two messages tie in the sort exactly when their timestamps are equal. */
  lemma {:induction false} TiesAreSameStamp(s: seq<Message>, z: Message)
    ensures TiesWith(s, z, Later) == Seqs.Filter(StampIs(z.timestamp), s)
  {
    if s != [] {
      TiesAreSameStamp(s[1..], z);
      LexLeTotal(z.timestamp, z.timestamp);
      if Later(s[0], z) && Later(z, s[0]) {
        LexLeAntisymmetric(s[0].timestamp, z.timestamp);
      }
    }
  }
}
