/** The watchapp of watchapp/src/c/main.c: the prompt queue shifted in place, and the choice parser against the
    phone's printer (companion PebbleBridge.kt). A char is a byte. */
module Watch {
  import opened Wrappers
  import HubSpec

  // ---- choices

  const MAX_CHOICES := 6
  const MAX_CHOICE_LEN := 25
  const SEP := 0x1f as char

  /** The complete segments of `s` and what follows the last separator. */
  function Scan(s: string): (seq<string>, string) {
    if s == "" then ([], "")
    else
      var (done, rest) := Scan(s[..|s| - 1]);
      if s[|s| - 1] == SEP then (done + [rest], "") else (done, rest + [s[|s| - 1]])
  }

  function ClipAll(segs: seq<string>): (r: seq<string>)
    ensures |r| == |segs| && forall i :: 0 <= i < |r| ==> r[i] == Truncate(segs[i], MAX_CHOICE_LEN - 1)
  {
    seq(|segs|, i requires 0 <= i < |segs| => Truncate(segs[i], MAX_CHOICE_LEN - 1))
  }

  /** parse_choices: the first six segments, the last one only if something follows its separator. */
  function Parse(packed: string): seq<string> {
    var (done, rest) := Scan(packed);
    ClipAll(if |done| >= MAX_CHOICES then done[..MAX_CHOICES] else if rest != "" then done + [rest] else done)
  }

  /** joinToString */
  function Join(list: seq<string>): string {
    if list == [] then ""
    else if |list| == 1 then list[0]
    else Join(list[..|list| - 1]) + [SEP] + list[|list| - 1]
  }

  ghost predicate Plain(s: string) {
    forall i :: 0 <= i < |s| ==> s[i] != SEP && s[i] != '\0'
  }

  lemma {:induction false} ScanSegment(a: string, b: string)
    requires Plain(b)
    ensures Scan(a + [SEP] + b) == (Scan(a).0 + [Scan(a).1], b)
  {
    if b == "" {
      assert (a + [SEP] + b)[..|a|] == a;
    } else {
      ScanSegment(a, b[..|b| - 1]);
      assert (a + [SEP] + b)[..|a + [SEP] + b| - 1] == a + [SEP] + b[..|b| - 1];
      assert b == b[..|b| - 1] + [b[|b| - 1]];
    }
  }

  lemma {:induction false} ScanPlain(b: string)
    requires Plain(b)
    ensures Scan(b) == ([], b)
  {
    if b != "" {
      ScanPlain(b[..|b| - 1]);
      assert b == b[..|b| - 1] + [b[|b| - 1]];
    }
  }

  lemma {:induction false} ScanJoin(list: seq<string>)
    requires list != [] && forall i :: 0 <= i < |list| ==> Plain(list[i])
    ensures Scan(Join(list)) == (list[..|list| - 1], list[|list| - 1])
  {
    var most := list[..|list| - 1];
    if |list| == 1 {
      ScanPlain(list[0]);
      assert most == [];
    } else {
      ScanJoin(most);
      ScanSegment(Join(most), list[|list| - 1]);
      assert most[..|most| - 1] + [most[|most| - 1]] == most;
    }
  }

  /** Parsing what the phone printed gives the list back if and only if its last entry is not empty, for every list
      as the daemon leaves it: at most six entries of at most 24 bytes without separator or NUL. */
  lemma ParseJoin(list: seq<string>)
    requires |list| <= MAX_CHOICES
    requires forall i :: 0 <= i < |list| ==> Plain(list[i]) && |list[i]| < MAX_CHOICE_LEN
    ensures Parse(Join(list)) == list <==> list == [] || list[|list| - 1] != ""
  {
    hide Scan, Join, Parse;
    if list == [] {
      ParseNothing();
    } else {
      ScanJoin(list);
      ParseScanned(Join(list), list[..|list| - 1], list[|list| - 1]);
      assert list[..|list| - 1] + [list[|list| - 1]] == list;
    }
  }

  lemma ParseNothing()
    ensures Parse(Join([])) == []
  {
  }

  lemma ParseScanned(packed: string, most: seq<string>, last: string)
    requires Scan(packed) == (most, last) && |most| < MAX_CHOICES && |last| < MAX_CHOICE_LEN
    requires forall i :: 0 <= i < |most| ==> |most[i]| < MAX_CHOICE_LEN
    ensures Parse(packed) == if last == "" then most else most + [last]
  {
    hide Scan;
    ClipNothing(if last == "" then most else most + [last]);
  }

  lemma ClipNothing(list: seq<string>)
    requires forall i :: 0 <= i < |list| ==> |list[i]| < MAX_CHOICE_LEN
    ensures ClipAll(list) == list
  {
  }

  /** Across the components: the choices of every permission prompt, as the daemon words and clips them, reach the
      watch unchanged, "Approve" first and "Reject" last, as long as the pattern holds no separator or NUL. */
  lemma PermissionChoicesArrive(project: string, ev: HubSpec.Event)
    requires ev.Permission? && (ev.always == [] || Plain(ev.always[0]))
    ensures var choices := HubSpec.PermEnvelope(project, ev).choices;
      && Parse(Join(choices)) == choices && |choices| == (if ev.always == [] then 2 else 3)
      && choices[0] == "Approve" && choices[|choices| - 1] == "Reject"
      && (ev.always != [] ==> choices[1] == "Always: " + Truncate(ev.always[0], 16))
  {
    hide Parse, Join;
    var choices := HubSpec.PermEnvelope(project, ev).choices;
    assert |"Approve"| == 7 && |"Reject"| == 6;
    if ev.always != [] {
      AlwaysClipped(ev.always[0]);
    }
    var raw := if ev.always == [] then ["Approve", "Reject"]
               else ["Approve", "Always: " + Truncate(ev.always[0], 24), "Reject"];
    assert choices == HubSpec.TruncateChoices(raw);
    assert |choices| == |raw| && forall i :: 0 <= i < |raw| ==> choices[i] == Truncate(raw[i], 24);
    ParseJoin(choices);
  }

  lemma AlwaysClipped(pattern: string)
    ensures Truncate("Always: " + Truncate(pattern, 24), 24) == "Always: " + Truncate(pattern, 16)
    ensures Plain(pattern) ==> Plain("Always: " + Truncate(pattern, 16))
  {
    assert |"Always: "| == 8;
  }

  /** Row `i` of the buffer holds `s` as a C string. */
  ghost predicate Holds(buf: array2<char>, i: nat, s: string)
    reads buf
  {
    && i < buf.Length0 && |s| < buf.Length1 && buf[i, |s|] == '\0'
    && forall k :: 0 <= k < |s| ==> buf[i, k] == s[k]
  }

  lemma {:induction false} ScanGrows(s: string, t: string)
    requires s <= t
    ensures Scan(s).0 <= Scan(t).0
    decreases |t|
  {
    if s != t {
      ScanGrows(s, t[..|t| - 1]);
    }
  }

  lemma ScanNext(packed: string, start: nat, p: nat)
    requires start <= p < |packed| && Scan(packed[..p]).1 == packed[start..p]
    ensures Scan(packed[..p + 1])
         == if packed[p] == SEP then (Scan(packed[..p]).0 + [packed[start..p]], packed[p + 1..p + 1])
            else (Scan(packed[..p]).0, packed[start..p + 1])
  {
    assert packed[..p + 1][..p] == packed[..p] && packed[p + 1..p + 1] == "";
    assert packed[start..p + 1] == packed[start..p] + [packed[p]];
  }

  /** The rows holding the segments found so far, each clipped. */
  ghost predicate Rows(buf: array2<char>, segs: seq<string>)
    reads buf
  {
    forall i :: 0 <= i < |segs| ==> Holds(buf, i, Truncate(segs[i], MAX_CHOICE_LEN - 1))
  }

  /** Copy one segment into the next row, clipped, and terminate it. */
  method Store(buf: array2<char>, row: nat, ghost segs: seq<string>, packed: string, start: nat, end: nat)
    requires buf.Length0 == MAX_CHOICES && buf.Length1 == MAX_CHOICE_LEN && |segs| == row < MAX_CHOICES
    requires start <= end <= |packed| && Rows(buf, segs)
    modifies buf
    ensures Rows(buf, segs + [packed[start..end]])
  {
    var len := end - start;
    if len >= MAX_CHOICE_LEN {
      len := MAX_CHOICE_LEN - 1;
    }
    for k := 0 to len
      invariant forall j :: 0 <= j < k ==> buf[row, j] == packed[start + j]
      invariant Rows(buf, segs)
    {
      buf[row, k] := packed[start + k];
    }
    buf[row, len] := '\0';
    assert Holds(buf, row, Truncate(packed[start..end], MAX_CHOICE_LEN - 1));
    ghost var all := segs + [packed[start..end]];
    forall i | 0 <= i < |all| ensures Holds(buf, i, Truncate(all[i], MAX_CHOICE_LEN - 1)) {
      if i < row {
        assert all[i] == segs[i];
      }
    }
  }

  /** parse_choices on its fixed buffer of six rows of 25 bytes; every write is inside it. */
  method ParseChoices(buf: array2<char>, packed: string) returns (count: nat)
    requires buf.Length0 == MAX_CHOICES && buf.Length1 == MAX_CHOICE_LEN
    modifies buf
    ensures count == |Parse(packed)| <= MAX_CHOICES && forall i :: 0 <= i < count ==> Holds(buf, i, Parse(packed)[i])
  {
    hide Truncate;
    count := 0;
    var start, p := 0, 0;
    while p < |packed| && count < MAX_CHOICES
      invariant start <= p <= |packed| && count <= MAX_CHOICES
      invariant |Scan(packed[..p]).0| == count && Scan(packed[..p]).1 == packed[start..p]
      invariant Rows(buf, Scan(packed[..p]).0)
      decreases |packed| - p
    {
      hide Scan, Rows, Holds;
      ScanNext(packed, start, p);
      if packed[p] == SEP {
        Store(buf, count, Scan(packed[..p]).0, packed, start, p);
        count := count + 1;
        start := p + 1;
      }
      p := p + 1;
    }
    ghost var done := Scan(packed[..p]).0;
    ScanGrows(packed[..p], packed);
    assert p == |packed| ==> packed[..p] == packed;
    if count < MAX_CHOICES && start < p {
      Store(buf, count, done, packed, start, p);
      count := count + 1;
      done := done + [packed[start..p]];
    }
    Parsed(buf, packed, done);
  }

  lemma Parsed(buf: array2<char>, packed: string, segs: seq<string>)
    requires Rows(buf, segs)
    requires var (done, rest) := Scan(packed);
      segs == if |done| >= MAX_CHOICES then done[..MAX_CHOICES] else if rest != "" then done + [rest] else done
    ensures |segs| == |Parse(packed)| && forall i :: 0 <= i < |segs| ==> Holds(buf, i, Parse(packed)[i])
  {
    hide Truncate, Scan, Holds;
  }

  // ---- the queue

  const MAX_QUEUE := 8
  const MAX_ID := 33

  datatype Entry = Entry(id: string, kind: nat, title: string, choices: seq<string>, answered: bool)

  function Without(q: seq<Entry>, i: nat): seq<Entry>
    requires i < |q|
  {
    q[..i] + q[i + 1..]
  }

  /** The first entry with this identifier, -1 when there is none. */
  function Find(q: seq<Entry>, id: string): (i: int)
    ensures -1 <= i < |q|
    ensures i >= 0 ==> q[i].id == id
    ensures forall k :: 0 <= k < (if i < 0 then |q| else i) ==> q[k].id != id
  {
    if q == [] then -1
    else
      var i := Find(q[..|q| - 1], id);
      if i >= 0 then i else if q[|q| - 1].id == id then |q| - 1 else -1
  }

  function Retract(q: seq<Entry>, id: string): seq<Entry> {
    if Find(q, id) >= 0 then Without(q, Find(q, id)) else q
  }

  /** The newest prompt, its identifier clipped to its field, in place of the oldest when all eight are taken. */
  function Push(q: seq<Entry>, e: Entry): seq<Entry> {
    (if |q| >= MAX_QUEUE then q[1..] else q) + [e.(id := Truncate(e.id, MAX_ID - 1))]
  }

  /** A gone message takes back what its prompt added if and only if the identifier fits its field, provided nothing
      in the queue has that identifier already. */
  lemma RetractUndoesPush(q: seq<Entry>, e: Entry)
    requires |q| <= MAX_QUEUE && forall i :: 0 <= i < |q| ==> q[i].id != e.id
    ensures Retract(Push(q, e), e.id) == (if |q| >= MAX_QUEUE then q[1..] else q) <==> |e.id| < MAX_ID
  {
    var kept := if |q| >= MAX_QUEUE then q[1..] else q;
    var q' := Push(q, e);
    assert q'[|kept|].id == Truncate(e.id, MAX_ID - 1);
    assert forall k :: 0 <= k < |kept| ==> q'[k].id != e.id;
    if |e.id| < MAX_ID {
      assert Find(q', e.id) == |kept|;
      assert Without(q', |kept|) == kept;
    } else {
      assert Find(q', e.id) == -1;
    }
  }

  class Queue {
    const slots: array<Entry>
    var count: nat
    var pos: int

    constructor (blank: Entry)
      ensures Valid() && Contents() == [] && fresh(slots)
    {
      slots := new Entry[MAX_QUEUE](_ => blank);
      count, pos := 0, 0;
    }

    /** The position points at an entry, or at slot 0 of an empty queue. */
    ghost predicate Valid()
      reads this
    {
      slots.Length == MAX_QUEUE && count <= MAX_QUEUE && 0 <= pos && (pos < count || pos == 0)
    }

    ghost function Contents(): seq<Entry>
      requires Valid()
      reads this, slots
    {
      slots[..count]
    }

    /** queue_remove_at: the rest shifts down. Unless the entry shown is the one removed, the same entry is shown
        after. */
    method RemoveAt(idx: int)
      requires Valid()
      modifies this`count, this`pos, slots
      ensures Valid()
      ensures Contents() == if 0 <= idx < old(count) then Without(old(Contents()), idx) else old(Contents())
      ensures old(count) > 0 && idx != old(pos) ==> count > 0 && Contents()[pos] == old(Contents())[old(pos)]
      ensures 0 <= idx < old(count) && idx == old(pos) ==> pos == if idx < count || count == 0 then idx else idx - 1
    {
      if idx < 0 || idx >= count {
        return;
      }
      ghost var was := slots[..count];
      for i := idx to count - 1
        invariant count == old(count) && pos == old(pos)
        invariant forall k :: 0 <= k < idx || i <= k < count ==> slots[k] == was[k]
        invariant forall k :: idx <= k < i ==> slots[k] == was[k + 1]
      {
        slots[i] := slots[i + 1];
      }
      count := count - 1;
      assert slots[..count] == Without(was, idx);
      if count == 0 {
        pos := 0;
      } else if pos > idx {
        pos := pos - 1;
      } else if pos >= count {
        pos := count - 1;
      }
    }

    method RemoveById(id: string)
      requires Valid()
      modifies this`count, this`pos, slots
      ensures Valid() && Contents() == Retract(old(Contents()), id)
    {
      hide Find, Without;
      ghost var was := Contents();
      for i := 0 to count
        invariant Valid() && count == |was| && Contents() == was
        invariant forall k :: 0 <= k < i ==> was[k].id != id
      {
        if slots[i].id == id {
          assert was[i].id == id;
          RemoveAt(i);
          return;
        }
      }
    }

    /** The enqueueing part of inbox_received: the new prompt is the one shown. */
    method Enqueue(e: Entry)
      requires Valid()
      modifies this`count, this`pos, slots
      ensures Valid() && Contents() == Push(old(Contents()), e) && pos == count - 1
    {
      if count >= MAX_QUEUE {
        RemoveAt(0);
      }
      ghost var kept := Contents();
      var idx := count;
      slots[idx] := e.(id := Truncate(e.id, MAX_ID - 1));
      count := count + 1;
      pos := idx;
      assert Contents() == kept + [slots[idx]];
    }

    /** current_entry, as an index; -1 for none. A position that points nowhere is put back to 0. */
    method Current() returns (at: int)
      modifies this`pos
      ensures count == 0 ==> at == -1 && pos == old(pos)
      ensures count > 0 ==> at == pos && pos == if 0 <= old(pos) < count then old(pos) else 0
      ensures old(Valid()) ==> Valid() && pos == old(pos)
    {
      if count == 0 {
        return -1;
      }
      if pos < 0 || pos >= count {
        pos := 0;
      }
      at := pos;
    }
  }
}
