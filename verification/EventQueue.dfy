// The hook event queue: one JSON line per event, appended by hooks and cut
// from the front by the daemon (src/dros/events.py).
module EventQueue {
  import opened Wrappers
  import opened Sequences
  import opened Texts

  datatype Payload = Payload(event: string, iface: Option<string>, createdAt: real)

  // What the daemon acts on: the creation time does not matter.
  datatype Key = Key(event: string, iface: Option<string>)

  function KeyOf(p: Payload): Key {
    Key(p.event, p.iface)
  }

  function KeysOf(ps: seq<Payload>): seq<Key> {
    seq(|ps|, i requires 0 <= i < |ps| => KeyOf(ps[i]))
  }

  // json.dumps and json.loads. decode yields None for a line that is not JSON
  // or whose event is not a string; the queue skips such a line.
  datatype Codec = Codec(encode: Payload -> string, decode: string -> Option<Key>)

  ghost predicate ValidCodec(c: Codec) {
    forall p: Payload :: SingleLine(c.encode(p)) && c.decode(c.encode(p)) == Some(KeyOf(p))
  }

  // ------------------------------------------------------------------ text

  function Encode(c: Codec, ps: seq<Payload>): seq<string> {
    seq(|ps|, i requires 0 <= i < |ps| => c.encode(ps[i]))
  }

  // The text of a queue file that holds exactly the payloads ps.
  function Text(c: Codec, ps: seq<Payload>): string {
    JoinLines(Encode(c, ps))
  }

  lemma TextAppend(c: Codec, ps: seq<Payload>, qs: seq<Payload>)
    ensures Text(c, ps + qs) == Text(c, ps) + Text(c, qs)
  {
    assert Encode(c, ps + qs) == Encode(c, ps) + Encode(c, qs);
    JoinAppend(Encode(c, ps), Encode(c, qs));
  }

  lemma TextOne(c: Codec, p: Payload)
    ensures Text(c, [p]) == c.encode(p) + "\n"
  {
    assert Encode(c, [p]) == [c.encode(p)];
    assert JoinLines([c.encode(p)][1..]) == "";
  }

  // ------------------------------------------------------------ coalescing

  // The events named by the readable lines, in order.
  function DecodeAll(c: Codec, lines: seq<string>): seq<Key> {
    if lines == [] then []
    else
      var rest := DecodeAll(c, lines[..|lines| - 1]);
      match c.decode(lines[|lines| - 1])
      case None => rest
      case Some(key) => rest + [key]
  }

  lemma {:induction false} DecodeText(c: Codec, ps: seq<Payload>)
    requires ValidCodec(c)
    ensures SplitLines(Text(c, ps)) == Encode(c, ps)
    ensures DecodeAll(c, SplitLines(Text(c, ps))) == KeysOf(ps)
  {
    SplitJoin(Encode(c, ps));
    DecodeEncoded(c, ps);
  }

  lemma {:induction false} DecodeEncoded(c: Codec, ps: seq<Payload>)
    requires ValidCodec(c)
    ensures DecodeAll(c, Encode(c, ps)) == KeysOf(ps)
  {
    if ps != [] {
      var front := ps[..|ps| - 1];
      DecodeEncoded(c, front);
      assert Encode(c, ps)[..|ps| - 1] == Encode(c, front);
      assert KeysOf(ps) == KeysOf(front) + [KeyOf(ps[|ps| - 1])];
    }
  }

  // Keep an element only where it occurs for the last time.
  function LastOccurrences<T(==)>(xs: seq<T>): seq<T> {
    if xs == [] then []
    else if xs[0] in xs[1..] then LastOccurrences(xs[1..])
    else [xs[0]] + LastOccurrences(xs[1..])
  }

  function Without<T(==)>(xs: seq<T>, x: T): seq<T> {
    if xs == [] then []
    else if xs[0] == x then Without(xs[1..], x)
    else [xs[0]] + Without(xs[1..], x)
  }

  lemma {:induction false} WithoutAbsent<T>(xs: seq<T>, x: T)
    requires x !in xs
    ensures Without(xs, x) == xs
  {
    if xs != [] {
      WithoutAbsent(xs[1..], x);
    }
  }

  lemma {:induction false} LastOccurrencesAppend<T>(xs: seq<T>, x: T)
    ensures LastOccurrences(xs + [x]) == Without(LastOccurrences(xs), x) + [x]
  {
    if xs == [] {
      assert xs + [x] == [x];
      assert LastOccurrences([x][1..]) == [];
    } else {
      assert (xs + [x])[1..] == xs[1..] + [x];
      LastOccurrencesAppend(xs[1..], x);
      var rest := LastOccurrences(xs[1..]);
      if xs[0] !in xs[1..] {
        assert LastOccurrences(xs) == [xs[0]] + rest;
        assert ([xs[0]] + rest)[1..] == rest;
      }
    }
  }

  function LastIndex<T(==)>(xs: seq<T>, x: T): (n: nat)
    requires x in xs
    ensures n < |xs| && xs[n] == x
    ensures forall j :: n < j < |xs| ==> xs[j] != x
  {
    if xs[|xs| - 1] == x then |xs| - 1 else LastIndex(xs[..|xs| - 1], x)
  }

  // Coalescing yields each key once, exactly the keys of the batch, ordered by
  // where each occurs last.
  lemma {:induction false} CoalescedOrder<T>(xs: seq<T>)
    ensures Distinct(LastOccurrences(xs))
    ensures forall x :: x in LastOccurrences(xs) <==> x in xs
    ensures forall i, j :: 0 <= i < j < |LastOccurrences(xs)| ==>
              LastIndex(xs, LastOccurrences(xs)[i]) < LastIndex(xs, LastOccurrences(xs)[j])
  {
    if xs != [] {
      var rest := LastOccurrences(xs[1..]);
      CoalescedOrder(xs[1..]);
      forall x | x in xs[1..]
        ensures LastIndex(xs, x) == LastIndex(xs[1..], x) + 1
      {
        assert xs[LastIndex(xs[1..], x) + 1] == x;
        assert forall j :: 0 < j < |xs| ==> xs[j] == xs[1..][j - 1];
      }
      if xs[0] !in xs[1..] {
        assert LastOccurrences(xs) == [xs[0]] + rest;
        assert LastIndex(xs, xs[0]) == 0;
      }
    }
  }

  // Those three facts leave no choice.
  lemma {:induction false} CoalescedUnique<T>(xs: seq<T>, r: seq<T>)
    requires forall x :: x in r <==> x in xs
    requires forall i, j :: 0 <= i < j < |r| ==> LastIndex(xs, r[i]) < LastIndex(xs, r[j])
    ensures r == LastOccurrences(xs)
  {
    CoalescedOrder(xs);
    SameOrder(xs, r, LastOccurrences(xs));
  }

  lemma HasElement<T>(s: seq<T>)
    ensures s == [] || exists x :: x in s
  {
    assert s == [] || s[0] in s;
  }

  lemma {:induction false} SameOrder<T>(xs: seq<T>, r: seq<T>, s: seq<T>)
    requires forall x :: x in r <==> x in s
    requires forall x :: x in r ==> x in xs
    requires forall i, j :: 0 <= i < j < |r| ==> LastIndex(xs, r[i]) < LastIndex(xs, r[j])
    requires forall i, j :: 0 <= i < j < |s| ==> LastIndex(xs, s[i]) < LastIndex(xs, s[j])
    ensures r == s
  {
    if r == [] {
      HasElement(s);
    } else {
      assert r[0] in s;
      assert s[0] in r;
      assert r[0] == s[0];
      forall x ensures x in r[1..] <==> x in s[1..] {
        if x in r[1..] {
          assert x in s && x != r[0];
        }
        if x in s[1..] {
          assert x in r && x != s[0];
        }
      }
      SameOrder(xs, r[1..], s[1..]);
      assert r == [r[0]] + r[1..];
      assert s == [s[0]] + s[1..];
    }
  }

  // The dict of _coalesce_event_payloads: each line moves its key to the end.
  method CoalesceEventPayloads(c: Codec, lines: seq<string>) returns (result: seq<Key>)
    ensures result == LastOccurrences(DecodeAll(c, lines))
  {
    result := [];
    for i := 0 to |lines|
      invariant result == LastOccurrences(DecodeAll(c, lines[..i]))
    {
      assert lines[..i + 1][..i] == lines[..i];
      match c.decode(lines[i]) {
        case None =>
        case Some(key) =>
          LastOccurrencesAppend(DecodeAll(c, lines[..i]), key);
          if key in result {
            result := Without(result, key);
          } else {
            WithoutAbsent(result, key);
          }
          result := result + [key];
      }
    }
    assert lines[..|lines|] == lines;
  }

  // ------------------------------------------------------- cutting a batch

  // What _delete_event_batch leaves of the file. The last two lines are the
  // fallback for a file that no longer starts with the batch.
  function CutBatch(current: string, batch: string): string {
    if batch <= current then current[|batch|..]
    else
      var lines := SplitLines(current);
      var n := |SplitLines(batch)|;
      JoinLines(if n <= |lines| then lines[n..] else [])
  }

  // When appends are the only writers the fallback is not taken, and what is
  // left is the text of what was appended since the read, in order.
  lemma CutLeavesAppended(c: Codec, batch: seq<Payload>, appended: seq<Payload>)
    ensures Text(c, batch) <= Text(c, batch + appended)
    ensures CutBatch(Text(c, batch + appended), Text(c, batch)) == Text(c, appended)
  {
    TextAppend(c, batch, appended);
  }

  // When the file no longer starts with the batch, as many lines go from the
  // front as the batch has, or all there are.
  lemma FallbackDropsLines(c: Codec, current: seq<Payload>, batch: string)
    requires ValidCodec(c) && !(batch <= Text(c, current))
    ensures var n := |SplitLines(batch)|;
            CutBatch(Text(c, current), batch) == Text(c, if n < |current| then current[n..] else [])
  {
    DecodeText(c, current);
    var n := |SplitLines(batch)|;
    if n <= |current| {
      assert Encode(c, current)[n..] == Encode(c, current[n..]);
    }
  }

  // The queue file itself. None is a file that does not exist or cannot be read.
  class EventFile {
    var text: Option<string>

    constructor ()
      ensures text == None
    {
      text := None;
    }

    function Contents(): string
      reads this
    {
      if text.None? then "" else text.value
    }

    method Enqueue(c: Codec, p: Payload)
      modifies this
      ensures text == Some(old(Contents()) + Text(c, [p]))
    {
      TextOne(c, p);
      var before := Contents();
      text := Some(before + c.encode(p) + "\n");
      assert before + c.encode(p) + "\n" == before + (c.encode(p) + "\n");
    }

    method ReadBatch() returns (batch: string)
      ensures batch == Contents()
    {
      batch := Contents();
    }

    method DeleteBatch(batch: string)
      modifies this
      ensures batch == "" || old(text).None? ==> text == old(text)
      ensures batch != "" && old(text).Some? ==> text == Some(CutBatch(old(text).value, batch))
    {
      if batch == "" || text.None? {
        return;
      }
      var current := text.value;
      if batch <= current {
        text := Some(current[|batch|..]);
        return;
      }
      var lines := SplitLines(current);
      var n := |SplitLines(batch)|;
      var remaining := if n <= |lines| then lines[n..] else [];
      text := Some(JoinLines(remaining));
    }
  }

  // The payloads that hooks append while the handlers of a batch run: those of
  // arrivals[i] land during the handler call number i.
  function Flatten<T>(xss: seq<seq<T>>): seq<T> {
    if xss == [] then [] else Flatten(xss[..|xss| - 1]) + xss[|xss| - 1]
  }

  method AppendAll(file: EventFile, c: Codec, ps: seq<Payload>, ghost before: seq<Payload>)
    requires file.Contents() == Text(c, before)
    modifies file
    ensures file.Contents() == Text(c, before + ps)
  {
    hide Text;
    assert before + ps[..0] == before;
    for i := 0 to |ps|
      invariant file.Contents() == Text(c, before + ps[..i])
    {
      file.Enqueue(c, ps[i]);
      TextAppend(c, before + ps[..i], [ps[i]]);
      assert before + ps[..i + 1] == before + ps[..i] + [ps[i]];
    }
    assert ps[..|ps|] == ps;
  }

  // _process_event_queue_locked, with every handler's exception caught. The
  // handlers are called once per key in coalesced order, and the file is left
  // with exactly the arrivals.
  method ProcessEventQueueLocked(
    file: EventFile, c: Codec, arrivals: seq<seq<Payload>>, ghost entries: seq<Payload>)
    returns (processed: nat, calls: seq<Key>)
    requires ValidCodec(c)
    requires file.Contents() == Text(c, entries)
    requires |arrivals| == |LastOccurrences(KeysOf(entries))|
    modifies file
    ensures calls == LastOccurrences(KeysOf(entries)) && processed == |calls|
    ensures file.Contents() == Text(c, Flatten(arrivals))
  {
    var batch := file.ReadBatch();
    DecodeText(c, entries);
    var payloads := CoalesceEventPayloads(c, SplitLines(batch));
    calls := HandleBatch(file, c, payloads, arrivals, entries);
    processed := |calls|;
    FinishBatch(file, c, batch, entries, Flatten(arrivals));
  }

  method HandleBatch(
    file: EventFile, c: Codec, payloads: seq<Key>, arrivals: seq<seq<Payload>>, ghost entries: seq<Payload>)
    returns (calls: seq<Key>)
    requires file.Contents() == Text(c, entries)
    requires |arrivals| == |payloads|
    modifies file
    ensures calls == payloads
    ensures file.Contents() == Text(c, entries + Flatten(arrivals))
  {
    calls := [];
    assert entries + Flatten(arrivals[..0]) == entries;
    for i := 0 to |payloads|
      invariant calls == payloads[..i]
      invariant file.Contents() == Text(c, entries + Flatten(arrivals[..i]))
    {
      calls := calls + [payloads[i]];
      AppendAll(file, c, arrivals[i], entries + Flatten(arrivals[..i]));
      FlattenNext(arrivals, i);
      assert entries + Flatten(arrivals[..i]) + arrivals[i] == entries + Flatten(arrivals[..i + 1]);
    }
    assert arrivals[..|payloads|] == arrivals;
  }

  method FinishBatch(
    file: EventFile, c: Codec, batch: string, ghost entries: seq<Payload>, ghost appended: seq<Payload>)
    requires batch == Text(c, entries)
    requires file.Contents() == Text(c, entries + appended)
    modifies file
    ensures file.Contents() == Text(c, appended)
  {
    CutLeavesAppended(c, entries, appended);
    TextEmpty(c, entries);
    TextEmpty(c, entries + appended);
    file.DeleteBatch(batch);
    if batch == "" {
      assert entries + appended == appended;
    }
  }

  lemma FlattenNext<T>(xss: seq<seq<T>>, i: nat)
    requires i < |xss|
    ensures Flatten(xss[..i + 1]) == Flatten(xss[..i]) + xss[i]
  {
    assert xss[..i + 1][..i] == xss[..i];
  }

  lemma TextEmpty(c: Codec, ps: seq<Payload>)
    ensures Text(c, ps) == "" <==> ps == []
  {
  }
}
