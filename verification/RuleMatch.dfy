/** Condition matching of automation rules (domain/automationrules/entity/match.go). */
module RuleMatch {
  import opened Text

  datatype EvalContext = EvalContext(
    status: string, channel: string, assignedAgent: string, sector: string, queue: string, priority: string,
    tags: seq<string>, contactPhone: string, messageContent: string, interactiveReply: string)

  /** OtherField stands for a stored field name that is none of these. */
  datatype Field =
    | Status | Channel | AssignedAgent | Sector | Queue | Priority
    | Tags | ContactPhone | MessageContent | InteractiveReply | OtherField

  datatype Operator = EqualTo | NotEqualTo | Contains | DoesNotContain | OtherOperator

  datatype Condition = Condition(field: Field, operator: Operator, value: string)

  /** strings.Contains */
  predicate Includes(s: string, sub: string) {
    exists i :: 0 <= i <= |s| - |sub| && s[i..][..|sub|] == sub
  }

  /** strings.Split by one byte. */
  function Split(s: string, sep: char): (parts: seq<string>)
    ensures 1 <= |parts|
    decreases |s|
  {
    var i := IndexOf(s, sep);
    if i < 0 then [s] else [s[..i]] + Split(s[i + 1..], sep)
  }

  /** A non-empty id that is exactly one item of a comma-separated list. */
  predicate IdInList(id: string, csv: string) {
    id != "" && exists i :: 0 <= i < |Split(csv, ',')| && TrimSpace(Split(csv, ',')[i]) == id
  }

  function ScalarField(ec: EvalContext, field: Field): string {
    match field
    case Status => ec.status
    case Channel => ec.channel
    case AssignedAgent => ec.assignedAgent
    case Sector => ec.sector
    case Queue => ec.queue
    case Priority => ec.priority
    case _ => ""
  }

  predicate Match(c: Condition, ec: EvalContext) {
    match c.field
    case Tags =>
      if c.operator == DoesNotContain then c.value !in ec.tags else c.value in ec.tags
    case ContactPhone =>
      if c.operator == Contains then Includes(ec.contactPhone, c.value) else ec.contactPhone == c.value
    case MessageContent =>
      var has := Includes(Lower(ec.messageContent), Lower(c.value));
      if c.operator == DoesNotContain then !has else has
    case InteractiveReply => (
      match c.operator
      case Contains => IdInList(ec.interactiveReply, c.value)
      case DoesNotContain => !IdInList(ec.interactiveReply, c.value)
      case NotEqualTo => ec.interactiveReply != c.value
      case _ => ec.interactiveReply == c.value
    )
    case _ =>
      if c.operator == NotEqualTo then ScalarField(ec, c.field) != c.value else ScalarField(ec, c.field) == c.value
  }

  predicate MatchesAll(conditions: seq<Condition>, ec: EvalContext) {
    forall i :: 0 <= i < |conditions| ==> Match(conditions[i], ec)
  }

  /** Each scalar field's condition reads that field. */
  lemma ScalarConditions(ec: EvalContext, v: string)
    ensures Match(Condition(Status, EqualTo, v), ec) <==> ec.status == v
    ensures Match(Condition(Channel, EqualTo, v), ec) <==> ec.channel == v
    ensures Match(Condition(AssignedAgent, EqualTo, v), ec) <==> ec.assignedAgent == v
    ensures Match(Condition(Sector, EqualTo, v), ec) <==> ec.sector == v
    ensures Match(Condition(Queue, EqualTo, v), ec) <==> ec.queue == v
    ensures Match(Condition(Priority, EqualTo, v), ec) <==> ec.priority == v
    ensures Match(Condition(InteractiveReply, EqualTo, v), ec) <==> ec.interactiveReply == v
    ensures Match(Condition(ContactPhone, EqualTo, v), ec) <==> ec.contactPhone == v
    ensures Match(Condition(OtherField, EqualTo, v), ec) <==> v == ""
  {
  }

  lemma ContainingConditions(ec: EvalContext, v: string)
    ensures Match(Condition(Tags, Contains, v), ec) <==> v in ec.tags
    ensures Match(Condition(InteractiveReply, Contains, v), ec) <==> IdInList(ec.interactiveReply, v)
    ensures Match(Condition(ContactPhone, Contains, v), ec) <==>
      exists before: string, after: string :: ec.contactPhone == before + v + after
  {
    hide IdInList;
    IncludesIff(ec.contactPhone, v);
  }

  lemma IncludesIff(s: string, sub: string)
    ensures Includes(s, sub) <==> exists before: string, after: string :: s == before + sub + after
  {
    if Includes(s, sub) {
      var i :| 0 <= i <= |s| - |sub| && s[i..][..|sub|] == sub;
      assert s == s[..i] + sub + s[i + |sub|..];
    }
    forall before: string, after: string | s == before + sub + after ensures Includes(s, sub) {
      assert s[|before|..][..|sub|] == sub;
    }
  }

  /** The negative operators deny exactly what the positive ones assert. */
  lemma OperatorsOppose(field: Field, v: string, ec: EvalContext)
    ensures field !in {Tags, ContactPhone, MessageContent} ==>
      (Match(Condition(field, NotEqualTo, v), ec) <==> !Match(Condition(field, EqualTo, v), ec))
    ensures field in {Tags, MessageContent, InteractiveReply} ==>
      (Match(Condition(field, DoesNotContain, v), ec) <==> !Match(Condition(field, Contains, v), ec))
  {
    hide Includes, IdInList, Lower;
  }

  /** The operators a field does not know read as its default one. */
  lemma OtherOperatorsDefault(field: Field, op: Operator, v: string, ec: EvalContext)
    requires op == OtherOperator || (op == NotEqualTo && field in {Tags, ContactPhone, MessageContent})
    ensures Match(Condition(field, op, v), ec)
         == Match(Condition(field, if field in {Tags, MessageContent} then Contains else EqualTo, v), ec)
  {
    hide Includes, IdInList, Lower;
  }

  predicate ReadsAt(s: string, sub: string, i: nat) {
    i + |sub| <= |s| && forall k :: 0 <= k < |sub| ==> SameLetter(s[i + k], sub[k])
  }

  /** A message condition finds its text anywhere, in any mix of cases. */
  lemma MessageMatchesCaseBlind(ec: EvalContext, v: string)
    ensures Match(Condition(MessageContent, Contains, v), ec) <==> exists i: nat :: ReadsAt(ec.messageContent, v, i)
  {
    var m := ec.messageContent;
    forall i: nat | i + |v| <= |m| ensures Lower(m)[i..][..|v|] == Lower(v) <==> ReadsAt(m, v, i) {
      LowerIsCaseBlind(m[i..i + |v|], v);
      assert Lower(m)[i..][..|v|] == Lower(m[i..i + |v|]);
    }
    hide Lower;
    if i: nat :| ReadsAt(m, v, i) {
      assert 0 <= i <= |Lower(m)| - |Lower(v)| && Lower(m)[i..][..|v|] == Lower(v);
    }
    if Includes(Lower(m), Lower(v)) {
      var i :| 0 <= i <= |Lower(m)| - |Lower(v)| && Lower(m)[i..][..|Lower(v)|] == Lower(v);
      assert ReadsAt(m, v, i);
    }
  }

  /** All conditions must hold; none means every event. */
  lemma MatchesAllTogether(a: seq<Condition>, c: Condition, ec: EvalContext)
    ensures MatchesAll([], ec)
    ensures MatchesAll(a + [c], ec) <==> MatchesAll(a, ec) && Match(c, ec)
  {
    hide Match;
    assert (a + [c])[|a|] == c && forall i :: 0 <= i < |a| ==> (a + [c])[i] == a[i];
  }

  // ---- the list condition tests exact membership -----------------------------

  function Join(items: seq<string>, sep: char): string
    requires items != []
  {
    if |items| == 1 then items[0] else items[0] + [sep] + Join(items[1..], sep)
  }

  lemma {:induction false} SplitJoin(items: seq<string>, sep: char)
    requires items != [] && forall item :: item in items ==> sep !in item
    ensures Split(Join(items, sep), sep) == items
  {
    if |items| > 1 {
      var rest := Join(items[1..], sep);
      SplitJoin(items[1..], sep);
      IndexOfJoined(items[0], sep, rest);
      var s := items[0] + [sep] + rest;
      assert s[..|items[0]|] == items[0] && s[|items[0]| + 1..] == rest;
    }
  }

  /** Written as a list, any ids without commas are tested one by one: neither a part
      of an id nor a neighbouring pair can match. */
  lemma ListMembershipIsExact(id: string, items: seq<string>)
    requires items != [] && forall item :: item in items ==> ',' !in item
    ensures IdInList(id, Join(items, ',')) <==> id != "" && exists item :: item in items && TrimSpace(item) == id
  {
    hide TrimSpace, Split;
    SplitJoin(items, ',');
    if item :| item in items && TrimSpace(item) == id {
      var i :| 0 <= i < |items| && items[i] == item;
      assert Split(Join(items, ','), ',')[i] == item;
    }
  }
}
