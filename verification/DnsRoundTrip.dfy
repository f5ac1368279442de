/** DNS messages put together from their parts (sections 4.1.1 to 4.1.4 of
    RFC 1035), and what the passes over the bytes make of them. */
module DnsRoundTrip {
  import opened Config
  import opened CText
  import opened Dns

  /** A domain name: labels, and behind them an empty one or a pointer. */
  datatype Name = Name(labels: seq<seq<Byte>>, pointer: Option<nat>) {
    predicate Valid() {
      (forall l | l in labels :: 0 < |l| < 0x40) && (pointer.Some? ==> pointer.value < 0x4000)
    }
  }

  datatype Question = Question(name: Name, kind: U16, class_: U16)
  datatype Resource = Resource(name: Name, kind: U16, class_: U16, ttl: U32, data: seq<Byte>) {
    predicate Valid() { name.Valid() && |data| < 0x1_0000 }
  }

  predicate Sendable(rs: seq<Resource>) {
    |rs| < 0x1_0000 && forall r | r in rs :: r.Valid()
  }

  datatype Message = Message(id: U16, flags: U16, questions: seq<Question>, answers: seq<Resource>,
                             authority: seq<Resource>, additional: seq<Resource>)
  {
    predicate Valid() {
      && |questions| < 0x1_0000 && (forall q | q in questions :: q.name.Valid())
      && Sendable(answers) && Sendable(authority) && Sendable(additional)
    }

    function Section(i: nat): seq<Resource> {
      if i == ANSWER then answers else if i == 2 then authority else additional
    }
  }

  /* ---- the bytes ---- */

  function Be16(x: U16): seq<Byte> { [x / 0x100, x % 0x100] }
  function Be32(x: U32): seq<Byte> { Be16(x / 0x1_0000) + Be16(x % 0x1_0000) }

  function NameBytes(n: Name): (b: seq<Byte>)
    requires n.Valid()
    ensures |b| > 0
    decreases |n.labels|
  {
    if n.labels == [] then
      if n.pointer == None then [0] else [0xc0 + n.pointer.value / 0x100, n.pointer.value % 0x100]
    else
      assert n.labels[0] in n.labels;
      [|n.labels[0]|] + n.labels[0] + NameBytes(n.(labels := n.labels[1..]))
  }

  function QuestionBytes(q: Question): seq<Byte>
    requires q.name.Valid()
  {
    NameBytes(q.name) + (Be16(q.kind) + Be16(q.class_))
  }

  /** The fields between the name and the data of a record. */
  function Fields(r: Resource): (b: seq<Byte>)
    requires r.Valid()
    ensures |b| == 10
  {
    Be16(r.kind) + Be16(r.class_) + Be32(r.ttl) + Be16(|r.data|)
  }

  function ResourceBytes(r: Resource): seq<Byte>
    requires r.Valid()
  {
    NameBytes(r.name) + (Fields(r) + r.data)
  }

  function QuestionsBytes(qs: seq<Question>): seq<Byte>
    requires forall q | q in qs :: q.name.Valid()
  {
    if qs == [] then [] else QuestionBytes(qs[0]) + QuestionsBytes(qs[1..])
  }

  function ResourcesBytes(rs: seq<Resource>): seq<Byte>
    requires forall r | r in rs :: r.Valid()
  {
    if rs == [] then [] else ResourceBytes(rs[0]) + ResourcesBytes(rs[1..])
  }

  function HeaderBytes(msg: Message): (b: seq<Byte>)
    requires msg.Valid()
    ensures |b| == 12
  {
    Be16(msg.id) + Be16(msg.flags) + Be16(|msg.questions|) + Be16(|msg.answers|) + Be16(|msg.authority|)
    + Be16(|msg.additional|)
  }

  /** The message up to section i. */
  function Upto(msg: Message, i: nat): seq<Byte>
    requires msg.Valid() && i <= SECTIONS
  {
    if i == QUESTION then HeaderBytes(msg)
    else Upto(msg, i - 1) + if i == 1 then QuestionsBytes(msg.questions) else ResourcesBytes(msg.Section(i - 1))
  }

  function Bytes(msg: Message): seq<Byte>
    requires msg.Valid()
  {
    Upto(msg, SECTIONS)
  }

  /* ---- one record ---- */

  /** A name with something behind it is skipped. */
  lemma {:induction false} NameSkipped(before: seq<Byte>, n: Name, after: seq<Byte>, end: nat)
    requires n.Valid()
    requires var m := before + (NameBytes(n) + after); |before| + |NameBytes(n)| < end <= |m|
    ensures var m := before + (NameBytes(n) + after); SkipName(m, |before|, end) == Some(|before| + |NameBytes(n)|)
    decreases |n.labels|
  {
    var m := before + (NameBytes(n) + after);
    assert m[|before|] == NameBytes(n)[0];
    if n.labels != [] {
      var l, rest := n.labels[0], n.(labels := n.labels[1..]);
      assert l in n.labels;
      var before' := before + ([|l|] + l);
      assert m == before' + (NameBytes(rest) + after);
      NameSkipped(before', rest, after, end);
    }
  }

  /** A pointer with nothing behind it is refused, and so are the two kinds of label
      that are neither a length nor a pointer. */
  lemma NameRefused(m: seq<Byte>, p: nat, end: nat)
    requires p < end <= |m|
    ensures m[p] >= 0xc0 && end <= p + 2 ==> SkipName(m, p, end) == None
    ensures 0x40 <= m[p] < 0xc0 ==> SkipName(m, p, end) == None
  {
  }

  lemma FieldsAt(before: seq<Byte>, r: Resource, after: seq<Byte>)
    requires r.Valid()
    ensures var m, p := before + (Fields(r) + after), |before|;
            && Get16(m, p) == r.kind && Get16(m, p + 2) == r.class_ && Get32(m, p + 4) == r.ttl
            && Get16(m, p + 8) == |r.data|
  {
    var m, p := before + (Fields(r) + after), |before|;
    assert forall k :: 0 <= k < 10 ==> m[p + k] == Fields(r)[k];
  }

  /** The passes over one record: it is skipped, and read back. */
  lemma ResourceRead(before: seq<Byte>, r: Resource, after: seq<Byte>, end: nat)
    requires r.Valid() && |before| + |ResourceBytes(r)| <= end <= |before| + |ResourceBytes(r)| + |after|
    ensures var m, next := before + (ResourceBytes(r) + after), |before| + |ResourceBytes(r)|;
            && SkipRecord(m, |before|, |m|, false) == Some(next)
            && var data := next - |r.data|;
               ParseRr(m, |before|, end) == Record(Rr(r.kind, r.class_, r.ttl, |r.data|, data))
               && m[data..next] == r.data
  {
    hide Fields, NameBytes, Get16, Get32, SkipName;
    var m := before + (ResourceBytes(r) + after);
    var name := NameBytes(r.name);
    assert m == before + (name + (Fields(r) + r.data + after));
    NameSkipped(before, r.name, Fields(r) + r.data + after, |m|);
    NameSkipped(before, r.name, Fields(r) + r.data + after, end);
    assert m == (before + name) + (Fields(r) + (r.data + after));
    FieldsAt(before + name, r, r.data + after);
    var data := |before + name| + 10;
    assert m == (before + name + Fields(r)) + (r.data + after);
    assert m[data..data + |r.data|] == r.data;
  }

  lemma QuestionSkipped(before: seq<Byte>, q: Question, after: seq<Byte>)
    requires q.name.Valid()
    ensures var m := before + (QuestionBytes(q) + after);
            SkipRecord(m, |before|, |m|, true) == Some(|before| + |QuestionBytes(q)|)
  {
    hide NameBytes, SkipName;
    var m := before + (QuestionBytes(q) + after);
    var fields := Be16(q.kind) + Be16(q.class_);
    assert m == before + (NameBytes(q.name) + (fields + after));
    NameSkipped(before, q.name, fields + after, |m|);
  }

  /* ---- sections ---- */

  lemma {:induction false} QuestionsSkipped(before: seq<Byte>, qs: seq<Question>, after: seq<Byte>)
    requires forall q | q in qs :: q.name.Valid()
    ensures var m := before + (QuestionsBytes(qs) + after);
            SkipRecords(m, |before|, |m|, |qs|, true) == Some(|before| + |QuestionsBytes(qs)|)
    decreases |qs|
  {
    hide QuestionBytes, SkipRecord;
    var m := before + (QuestionsBytes(qs) + after);
    if qs != [] {
      var rest := QuestionsBytes(qs[1..]);
      assert m == before + (QuestionBytes(qs[0]) + (rest + after));
      QuestionSkipped(before, qs[0], rest + after);
      assert m == (before + QuestionBytes(qs[0])) + (rest + after);
      QuestionsSkipped(before + QuestionBytes(qs[0]), qs[1..], after);
    }
  }

  /** The records read are those written, field by field. */
  ghost predicate Same(m: seq<Byte>, rrs: seq<Rr>, rs: seq<Resource>) {
    && |rrs| == |rs|
    && forall i :: 0 <= i < |rs| ==>
         && rrs[i].kind == rs[i].kind && rrs[i].class_ == rs[i].class_ && rrs[i].ttl == rs[i].ttl
         && rrs[i].Next() <= |m| && m[rrs[i].data..rrs[i].Next()] == rs[i].data
  }

  lemma SameMore(m: seq<Byte>, rr: Rr, r: Resource, rrs: seq<Rr>, rs: seq<Resource>)
    requires rs != [] && r == rs[0] && Same(m, rrs, rs[1..])
    requires rr.kind == r.kind && rr.class_ == r.class_ && rr.ttl == r.ttl
    requires rr.Next() <= |m| && m[rr.data..rr.Next()] == r.data
    ensures Same(m, [rr] + rrs, rs)
  {
    assert forall i :: 1 <= i < |rs| ==> rs[i] == rs[1..][i - 1];
  }

  lemma BytesStep(rs: seq<Resource>)
    requires forall r | r in rs :: r.Valid()
    ensures if rs == [] then ResourcesBytes(rs) == [] else
              rs[0].Valid() && (forall r | r in rs[1..] :: r.Valid())
              && ResourcesBytes(rs) == ResourceBytes(rs[0]) + ResourcesBytes(rs[1..])
  {
  }

  lemma PassesStep(m: seq<Byte>, p: nat, next: nat, end: nat, n: nat)
    requires p <= next <= end <= |m| && n > 0 && SkipRecord(m, p, |m|, false) == Some(next)
    requires ParseRr(m, p, end).Record? && ParseRr(m, p, end).rr.Next() == next
    ensures SkipRecords(m, p, |m|, n, false) == SkipRecords(m, next, |m|, n - 1, false)
    ensures ReadSection(m, p, end) ==
            ([ParseRr(m, p, end).rr] + ReadSection(m, next, end).0, ReadSection(m, next, end).1)
  {
    hide SkipRecord, ParseRr;
  }

  lemma PassesEnd(m: seq<Byte>, end: nat)
    requires end <= |m|
    ensures SkipRecords(m, end, |m|, 0, false) == Some(end) && ReadSection(m, end, end) == ([], true)
    ensures Same(m, [], [])
  {
  }

  lemma {:induction false} ResourcesRead(before: seq<Byte>, rs: seq<Resource>, after: seq<Byte>)
    requires forall r | r in rs :: r.Valid()
    ensures var m, end := before + (ResourcesBytes(rs) + after), |before| + |ResourcesBytes(rs)|;
            && SkipRecords(m, |before|, |m|, |rs|, false) == Some(end)
            && ReadSection(m, |before|, end).1 && Same(m, ReadSection(m, |before|, end).0, rs)
    decreases |rs|
  {
    hide ResourceBytes, ResourcesBytes, SkipRecord, Same, SkipRecords, ReadSection, ParseRr;
    BytesStep(rs);
    var m, end := before + (ResourcesBytes(rs) + after), |before| + |ResourcesBytes(rs)|;
    if rs != [] {
      var rest := ResourcesBytes(rs[1..]);
      assert m == before + (ResourceBytes(rs[0]) + (rest + after));
      ResourceRead(before, rs[0], rest + after, end);
      assert m == (before + ResourceBytes(rs[0])) + (rest + after);
      ResourcesRead(before + ResourceBytes(rs[0]), rs[1..], after);
      var rr := ParseRr(m, |before|, end).rr;
      PassesStep(m, |before|, rr.Next(), end, |rs|);
      SameMore(m, rr, rs[0], ReadSection(m, rr.Next(), end).0, rs);
    } else {
      PassesEnd(m, end);
    }
  }

  /* ---- the message ---- */

  function LayoutOf(msg: Message): Layout
    requires msg.Valid()
  {
    Layout([|msg.questions|, |msg.answers|, |msg.authority|, |msg.additional|],
           seq(SECTIONS + 1, i requires 0 <= i <= SECTIONS => |Upto(msg, i)|))
  }

  lemma HeaderRead(msg: Message, after: seq<Byte>)
    requires msg.Valid()
    ensures HeaderCounts(HeaderBytes(msg) + after) == LayoutOf(msg).counts
  {
    var h := HeaderBytes(msg);
    assert forall k :: 0 <= k < 12 ==> (h + after)[k] == h[k];
    hide Upto;
  }

  /** The bytes of section i, and what comes behind them. */
  function Part(msg: Message, i: nat): seq<Byte>
    requires msg.Valid() && i < SECTIONS
  {
    if i == QUESTION then QuestionsBytes(msg.questions) else ResourcesBytes(msg.Section(i))
  }

  lemma {:induction false} Splits(msg: Message, tail: seq<Byte>, i: nat) returns (after: seq<Byte>)
    requires msg.Valid() && i <= SECTIONS
    ensures Bytes(msg) + tail == Upto(msg, i) + after
    decreases SECTIONS - i
  {
    hide HeaderBytes, QuestionsBytes, ResourcesBytes;
    if i < SECTIONS {
      var rest := Splits(msg, tail, i + 1);
      after := Part(msg, i) + rest;
      assert Upto(msg, i + 1) == Upto(msg, i) + Part(msg, i);
    } else {
      after := tail;
    }
  }

  /** Reading the part of m from p to end gives these records and no error. */
  ghost predicate ReadsBack(m: seq<Byte>, p: nat, end: nat, rs: seq<Resource>) {
    end <= |m| && ReadSection(m, p, end).1 && Same(m, ReadSection(m, p, end).0, rs)
  }

  /** Section i is skipped by the first pass and, if it is one of resource
      records, read back by the second. */
  ghost predicate BothPasses(msg: Message, tail: seq<Byte>, i: nat)
    requires msg.Valid() && i < SECTIONS
  {
    var m, l := Bytes(msg) + tail, LayoutOf(msg);
    && l.sections[i] <= l.sections[i + 1] <= |m|
    && SkipRecords(m, l.sections[i], |m|, l.counts[i], i == QUESTION) == Some(l.sections[i + 1])
    && (i > QUESTION ==> ReadsBack(m, l.sections[i], l.sections[i + 1], msg.Section(i)))
  }

  lemma SectionRead(msg: Message, tail: seq<Byte>, i: nat)
    requires msg.Valid() && i < SECTIONS
    ensures BothPasses(msg, tail, i)
  {
    hide HeaderBytes, QuestionsBytes, ResourcesBytes, SkipRecords, ReadSection, Same;
    var after := Splits(msg, tail, i + 1);
    assert Upto(msg, i + 1) == Upto(msg, i) + Part(msg, i);
    assert Bytes(msg) + tail == Upto(msg, i) + (Part(msg, i) + after);
    if i == QUESTION {
      QuestionsSkipped(Upto(msg, i), msg.questions, after);
    } else {
      ResourcesRead(Upto(msg, i), msg.Section(i), after);
    }
  }

  /** A message put together from valid parts is accepted, whatever lies behind it,
      with the layout of its parts and no other, and reading a section of resource records gives back
      exactly the records it was made of. */
  lemma MessageRoundTrip(msg: Message, tail: seq<Byte>)
    requires msg.Valid()
    ensures forall l :: Accepts(Bytes(msg) + tail, l) <==> l == LayoutOf(msg)
    ensures var m, l := Bytes(msg) + tail, LayoutOf(msg);
            forall i :: ANSWER <= i < SECTIONS ==> ReadsBack(m, l.sections[i], l.sections[i + 1], msg.Section(i))
  {
    hide HeaderBytes, Upto, SkipRecords, ReadsBack, HeaderCounts;
    var m, l := Bytes(msg) + tail, LayoutOf(msg);
    Counted(msg, tail);
    forall i | 0 <= i < SECTIONS ensures BothPasses(msg, tail, i) { SectionRead(msg, tail, i); }
    assert BothPasses(msg, tail, 0) && BothPasses(msg, tail, 1) && BothPasses(msg, tail, 2) && BothPasses(msg, tail, 3);
    assert Bounded(m, l.sections);
    forall k | Accepts(m, k) ensures k == l {
      forall i | 0 <= i <= SECTIONS ensures k.sections[i] == l.sections[i] {
        BoundsUnique(m, k.sections, l.sections, i);
      }
    }
  }

  lemma Counted(msg: Message, tail: seq<Byte>)
    requires msg.Valid()
    ensures |Bytes(msg) + tail| >= 12 && |Upto(msg, 0)| == 12 && HeaderCounts(Bytes(msg) + tail) == LayoutOf(msg).counts
  {
    var after := Splits(msg, tail, 0);
    HeaderRead(msg, after);
    hide HeaderBytes, QuestionsBytes, ResourcesBytes;
    assert Upto(msg, 0) == HeaderBytes(msg);
  }

  /* ---- every accepted message is one of these ---- */

  /** A name that is skipped is a valid one. */
  lemma {:induction false} NameFound(m: seq<Byte>, p: nat, end: nat) returns (n: Name)
    requires end <= |m| && SkipName(m, p, end).Some?
    ensures n.Valid() && m[p..SkipName(m, p, end).value] == NameBytes(n)
    decreases end - p
  {
    var next := SkipName(m, p, end).value;
    if m[p] == 0 {
      n := Name([], None);
    } else if m[p] < 0x40 {
      var q := p + 1 + m[p];
      var rest := NameFound(m, q, end);
      n := Name([m[p + 1..q]] + rest.labels, rest.pointer);
      LabelFound(m[p + 1..q], rest);
      assert m[p..next] == [m[p]] + m[p + 1..q] + m[q..next];
    } else {
      var to: nat := (m[p] - 0xc0) as int * 0x100 + m[p + 1];
      n := Name([], Some(to));
      assert to / 0x100 == m[p] - 0xc0 && to % 0x100 == m[p + 1];
    }
  }

  lemma LabelFound(l: seq<Byte>, rest: Name)
    requires 0 < |l| < 0x40 && rest.Valid()
    ensures var n := Name([l] + rest.labels, rest.pointer); n.Valid() && NameBytes(n) == [|l|] + l + NameBytes(rest)
  {
    var n := Name([l] + rest.labels, rest.pointer);
    assert n.labels[1..] == rest.labels && n.(labels := rest.labels) == rest;
  }

  lemma Be16Found(m: seq<Byte>, p: nat)
    requires p + 2 <= |m|
    ensures m[p..p + 2] == Be16(Get16(m, p))
  {
  }

  lemma ThreeParts(m: seq<Byte>, p: nat, a: nat, b: nat, end: nat)
    requires p <= a <= b <= end <= |m|
    ensures m[p..end] == m[p..a] + (m[a..b] + m[b..end])
  {
  }

  lemma FiveParts(m: seq<Byte>, k: nat)
    requires k + 10 <= |m|
    ensures m[k..k + 10] ==
            m[k..k + 2] + m[k + 2..k + 4] + (m[k + 4..k + 6] + m[k + 6..k + 8]) + m[k + 8..k + 10]
  {
    assert m[k..k + 4] == m[k..k + 2] + m[k + 2..k + 4] && m[k + 4..k + 8] == m[k + 4..k + 6] + m[k + 6..k + 8];
    assert m[k..k + 8] == m[k..k + 4] + m[k + 4..k + 8] && m[k..k + 10] == m[k..k + 8] + m[k + 8..k + 10];
  }

  lemma QuestionFound(m: seq<Byte>, p: nat) returns (q: Question)
    requires SkipRecord(m, p, |m|, true).Some?
    ensures q.name.Valid() && m[p..SkipRecord(m, p, |m|, true).value] == QuestionBytes(q)
  {
    hide NameBytes, SkipName, Get16, Be16;
    var name := NameFound(m, p, |m|);
    var k := SkipName(m, p, |m|).value;
    q := Question(name, Get16(m, k), Get16(m, k + 2));
    Be16Found(m, k);
    Be16Found(m, k + 2);
    ThreeParts(m, p, k, k + 2, k + 4);
  }

  lemma ResourceFound(m: seq<Byte>, p: nat) returns (r: Resource)
    requires SkipRecord(m, p, |m|, false).Some?
    ensures r.Valid() && m[p..SkipRecord(m, p, |m|, false).value] == ResourceBytes(r)
  {
    hide NameBytes, SkipName, Get16, Be16;
    var name := NameFound(m, p, |m|);
    var k, next := SkipName(m, p, |m|).value, SkipRecord(m, p, |m|, false).value;
    var ttl := Get32(m, k + 4);
    r := Resource(name, Get16(m, k), Get16(m, k + 2), ttl, m[k + 10..next]);
    Be16Found(m, k);
    Be16Found(m, k + 2);
    Be16Found(m, k + 4);
    Be16Found(m, k + 6);
    Be16Found(m, k + 8);
    assert ttl / 0x1_0000 == Get16(m, k + 4) && ttl % 0x1_0000 == Get16(m, k + 6);
    assert Be32(ttl) == m[k + 4..k + 6] + m[k + 6..k + 8];
    FiveParts(m, k);
    ThreeParts(m, p, k, k + 10, next);
  }

  lemma {:induction false} QuestionsFound(m: seq<Byte>, p: nat, n: nat) returns (qs: seq<Question>)
    requires p <= |m| && SkipRecords(m, p, |m|, n, true).Some?
    ensures |qs| == n && (forall q | q in qs :: q.name.Valid())
    ensures m[p..SkipRecords(m, p, |m|, n, true).value] == QuestionsBytes(qs)
    decreases n
  {
    hide SkipRecord, QuestionBytes;
    qs := [];
    if n > 0 {
      var q := QuestionFound(m, p);
      var next, end := SkipRecord(m, p, |m|, true).value, SkipRecords(m, p, |m|, n, true).value;
      var rest := QuestionsFound(m, next, n - 1);
      qs := [q] + rest;
      assert qs[1..] == rest && m[p..end] == m[p..next] + m[next..end];
    }
  }

  lemma {:induction false} ResourcesFound(m: seq<Byte>, p: nat, n: nat) returns (rs: seq<Resource>)
    requires p <= |m| && SkipRecords(m, p, |m|, n, false).Some?
    ensures |rs| == n && (forall r | r in rs :: r.Valid())
    ensures m[p..SkipRecords(m, p, |m|, n, false).value] == ResourcesBytes(rs)
    decreases n
  {
    hide SkipRecord, ResourceBytes;
    rs := [];
    if n > 0 {
      var r := ResourceFound(m, p);
      var next, end := SkipRecord(m, p, |m|, false).value, SkipRecords(m, p, |m|, n, false).value;
      var rest := ResourcesFound(m, next, n - 1);
      rs := [r] + rest;
      assert rs[1..] == rest && m[p..end] == m[p..next] + m[next..end];
    }
  }

  lemma HeaderFound(m: seq<Byte>, msg: Message)
    requires |m| >= 12 && msg.Valid() && msg.id == Get16(m, 0) && msg.flags == Get16(m, 2)
    requires HeaderCounts(m) == [|msg.questions|, |msg.answers|, |msg.authority|, |msg.additional|]
    ensures m[..12] == HeaderBytes(msg)
  {
    hide Get16;
    Be16Found(m, 0);
    Be16Found(m, 2);
    Be16Found(m, 4);
    Be16Found(m, 6);
    Be16Found(m, 8);
    Be16Found(m, 10);
    assert m[..12] == m[0..2] + m[2..4] + m[4..6] + m[6..8] + m[8..10] + m[10..12];
  }

  /** A message is accepted if and only if it begins with one put together from
      valid parts. */
  lemma AcceptedIff(m: seq<Byte>)
    ensures (exists l :: Accepts(m, l)) <==> exists msg: Message :: msg.Valid() && Bytes(msg) <= m
  {
    hide Bytes, Accepts;
    if msg: Message :| msg.Valid() && Bytes(msg) <= m {
      MessageRoundTrip(msg, m[|Bytes(msg)|..]);
      assert m == Bytes(msg) + m[|Bytes(msg)|..];
      assert Accepts(m, LayoutOf(msg));
    }
    if l :| Accepts(m, l) {
      var msg := MessageFound(m, l);
    }
  }

  lemma MessageFound(m: seq<Byte>, l: Layout) returns (msg: Message)
    requires Accepts(m, l)
    ensures msg.Valid() && Bytes(msg) <= m
  {
    hide SkipRecords, HeaderBytes, QuestionsBytes, ResourcesBytes, HeaderCounts;
    var b := l.sections;
    assert Encloses(m, b, 0) && Encloses(m, b, 1) && Encloses(m, b, 2) && Encloses(m, b, 3);
    Boundaries(m, l);
    var qs := QuestionsFound(m, b[0], l.counts[0]);
    var an := ResourcesFound(m, b[1], l.counts[1]);
    var ns := ResourcesFound(m, b[2], l.counts[2]);
    var ar := ResourcesFound(m, b[3], l.counts[3]);
    msg := Message(Get16(m, 0), Get16(m, 2), qs, an, ns, ar);
    HeaderFound(m, msg);
    assert Upto(msg, 0) == m[..b[0]];
    assert Upto(msg, 1) == Upto(msg, 0) + m[b[0]..b[1]] == m[..b[1]];
    assert Upto(msg, 2) == Upto(msg, 1) + m[b[1]..b[2]] == m[..b[2]];
    assert Upto(msg, 3) == Upto(msg, 2) + m[b[2]..b[3]] == m[..b[3]];
    assert Upto(msg, 4) == Upto(msg, 3) + m[b[3]..b[4]] == m[..b[4]];
  }

  lemma Boundaries(m: seq<Byte>, l: Layout)
    requires Accepts(m, l)
    ensures var b := l.sections; 12 == b[0] <= b[1] <= b[2] <= b[3] <= b[4] <= |m|
    ensures |l.counts| == SECTIONS && forall i :: 0 <= i < SECTIONS ==> 0 <= l.counts[i] < 0x1_0000
  {
    BoundariesMonotone(m, l, 0, 1);
    BoundariesMonotone(m, l, 1, 2);
    BoundariesMonotone(m, l, 2, 3);
    BoundariesMonotone(m, l, 3, 4);
  }

  /* ---- the answer ---- */

  /** The name in a record, if it is an Internet text record. */
  function NameOfResource(r: Resource): Option<seq<Byte>> {
    if r.class_ == 1 && r.kind == 16 then NameIn(Strings(r.data)) else None
  }

  function FirstName(rs: seq<Resource>): Option<seq<Byte>> {
    if rs == [] then None
    else if NameOfResource(rs[0]).Some? then NameOfResource(rs[0]) else FirstName(rs[1..])
  }

  lemma {:induction false} NamesAgree(m: seq<Byte>, rrs: seq<Rr>, rs: seq<Resource>)
    requires Same(m, rrs, rs)
    ensures (forall r | r in rrs :: r.Next() <= |m|) && NameFrom(m, rrs) == FirstName(rs)
    decreases |rs|
  {
    hide Strings, NameIn;
    if rs != [] {
      assert Same(m, rrs[1..], rs[1..]);
      NamesAgree(m, rrs[1..], rs[1..]);
      assert rrs[0] in rrs;
    }
  }

  /** The lookup on a message put together from valid parts answers with the name
      in the first Internet text record of its answer section that has one. */
  lemma MessageAnswered(msg: Message, tail: seq<Byte>)
    requires msg.Valid()
    ensures var m, l := Bytes(msg) + tail, LayoutOf(msg);
            && Accepts(m, l) && l.sections[ANSWER + 1] <= |m|
            && var rrs := ReadSection(m, l.sections[ANSWER], l.sections[ANSWER + 1]).0;
               (forall r | r in rrs :: r.Next() <= |m|) && NameFrom(m, rrs) == FirstName(msg.answers)
  {
    hide Bytes, LayoutOf, Accepts, ReadSection, FirstName, NameFrom, Same;
    MessageRoundTrip(msg, tail);
    var m, l := Bytes(msg) + tail, LayoutOf(msg);
    assert |l.sections| == SECTIONS + 1 by { FiveBounds(m, l); }
    assert ReadsBack(m, l.sections[ANSWER], l.sections[ANSWER + 1], msg.Section(ANSWER));
    NamesAgree(m, ReadSection(m, l.sections[ANSWER], l.sections[ANSWER + 1]).0, msg.answers);
  }

  lemma FiveBounds(m: seq<Byte>, l: Layout)
    requires Accepts(m, l)
    ensures |l.sections| == SECTIONS + 1
  {
  }

  /** An Internet text record whose first string is "i=" and a name, alone in its
      section or in front of any others, is answered with that name. */
  lemma TextAnswered(name: Name, ttl: U32, text: seq<Byte>, more: seq<seq<Byte>>, others: seq<Resource>)
    requires |text| < 0x100 - 2 && 0 !in text && forall s | s in more :: |s| < 0x100
    ensures forall s | s in [[0x69, 0x3d] + text] + more :: |s| < 0x100
    ensures var data := Encoded([[0x69, 0x3d] + text] + more);
            FirstName([Resource(name, 16, 1, ttl, data)] + others) == Some(text)
  {
    hide Encoded, Strings;
    var first: seq<Byte> := [0x69, 0x3d] + text;
    var ss := [first] + more;
    assert forall s | s in ss :: s == first || s in more;
    StringsRoundTrip(ss);
    assert first[2..] == text;
    WholeText(text);
    assert ss[0] == first;
    var r := Resource(name, 16, 1, ttl, Encoded(ss));
    assert ([r] + others)[0] == r;
  }

  lemma {:induction false} WholeText(text: seq<Byte>)
    requires 0 !in text
    ensures UpToNul(text) == text
  {
    if text != [] { WholeText(text[1..]); }
  }

  /** Without an Internet text record there is no answer. */
  lemma {:induction false} NoTextNoAnswer(rs: seq<Resource>)
    requires forall r | r in rs :: !(r.class_ == 1 && r.kind == 16)
    ensures FirstName(rs) == None
  {
    if rs != [] { NoTextNoAnswer(rs[1..]); }
  }
}
