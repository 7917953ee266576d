/** kgo.Record and its header slice: Marks.Apply in place, and the record Forward
    builds over an array it shares with the record it came from. */
module Records {
  import opened Wrappers
  import opened Decimal
  import opened Marks
  import opened Forwarder
  import P = Pipeline

  /** A Go slice that starts at the front of its array. */
  datatype Slice = Slice(arr: array<Header>, len: nat, cap: nat) {
    ghost predicate Valid() {
      len <= cap <= arr.Length
    }

    ghost function View(): seq<Header>
      requires Valid()
      reads arr
    {
      arr[..len]
    }

    /** s[:0:0]: the same array, no length and no room. */
    function Emptied(): (r: Slice) {
      Slice(arr, 0, 0)
    }
  }

  /** append(s, h): in place while there is room, into a new array when there is not. */
  method Append(s: Slice, h: Header) returns (t: Slice)
    requires s.Valid()
    modifies if s.len < s.cap then {s.arr} else {}
    ensures t.Valid() && t.View() == old(s.View()) + [h]
    ensures s.len < s.cap ==> t.arr == s.arr
    ensures s.len == s.cap ==> fresh(t.arr)
  {
    if s.len < s.cap {
      s.arr[s.len] := h;
      return Slice(s.arr, s.len + 1, s.cap);
    }
    var room: nat :| room >= 0;
    var bigger := new Header[s.len + 1 + room](_ => h);
    var i := 0;
    while i < s.len
      invariant 0 <= i <= s.len && bigger[..i] == s.arr[..i] && bigger[s.len] == h
    {
      bigger[i] := s.arr[i];
      i := i + 1;
    }
    assert bigger[..s.len + 1] == s.arr[..s.len] + [h];
    t := Slice(bigger, s.len + 1, s.len + 1 + room);
  }

  /** append(s, hs...). */
  method AppendAll(s: Slice, hs: seq<Header>) returns (t: Slice)
    requires s.Valid()
    modifies if s.len < s.cap then {s.arr} else {}
    ensures t.Valid() && t.View() == old(s.View()) + hs
    ensures s.len == s.cap && hs != [] ==> fresh(t.arr)
    ensures t.arr == s.arr || fresh(t.arr)
  {
    t := s;
    var i := 0;
    while i < |hs|
      invariant 0 <= i <= |hs| && t.Valid()
      invariant t.View() == old(s.View()) + hs[..i]
      invariant t == s || fresh(t.arr) || (t.arr == s.arr && s.len < s.cap)
      invariant s.len == s.cap ==> (if i == 0 then t == s else fresh(t.arr))
    {
      t := Append(t, hs[i]);
      i := i + 1;
    }
  }

  class Record {
    var topic: string
    var key: string
    var value: string
    var headers: Slice

    constructor (topic: string, key: string, value: string, headers: Slice)
      ensures this.topic == topic && this.key == key && this.value == value && this.headers == headers
    {
      this.topic := topic;
      this.key := key;
      this.value := value;
      this.headers := headers;
    }

    /** The record as a value. */
    ghost function View(): Message
      requires headers.Valid()
      reads this, headers.arr
    {
      Message(topic, key, value, headers.View())
    }

    /** Marks.Apply: a new slice of the record's own headers and then the marks. The
        array the record came with is read and never written, although a record in
        Forward shares it with the one being forwarded. */
    method Apply(m: MarkSet)
      requires headers.Valid()
      modifies this`headers
      ensures headers.Valid() && fresh(headers.arr)
      ensures View() == old(View()).(headers := Applied(m, old(headers.View())))
    {
      hide Headers, IsNine, Foreign;
      HeadersAreNine(m);
      var marks := Headers(m);
      var mine := set h | h in marks :: h.key;
      var kept := headers.Emptied();
      ghost var all := headers.View();
      var i := 0;
      while i < headers.len
        invariant 0 <= i <= headers.len && kept.Valid() && headers == old(headers)
        invariant kept == headers.Emptied() || fresh(kept.arr)
        invariant headers.View() == all
        invariant kept.View() + Foreign(all[i..]) == Foreign(all)
      {
        var h := headers.arr[i];
        ForeignStep(all, i);
        ghost var sofar := kept.View();
        if h.key !in mine && !IsNine(h.key) {
          kept := Append(kept, h);
          assert sofar + ([h] + Foreign(all[i + 1..])) == sofar + [h] + Foreign(all[i + 1..]);
        } else {
          assert [] + Foreign(all[i + 1..]) == Foreign(all[i + 1..]);
        }
        i := i + 1;
      }
      NothingForeign(all, i);
      headers := AppendAll(kept, marks);
    }
  }

  /** A message as the client hands it over. */
  method Received(m: Message) returns (r: Record)
    ensures fresh(r) && r.headers.Valid() && fresh(r.headers.arr) && r.View() == m
  {
    var arr := new Header[|m.headers|](i requires 0 <= i < |m.headers| => m.headers[i]);
    assert arr[..|m.headers|] == m.headers;
    r := new Record(m.topic, m.key, m.value, Slice(arr, |m.headers|, |m.headers|));
  }

  /** A message as the client takes it. */
  method Sending(r: Record) returns (m: Message)
    requires r.headers.Valid()
    ensures m == r.View()
  {
    m := Message(r.topic, r.key, r.value, r.headers.arr[..r.headers.len]);
  }

  lemma NothingForeign(hs: seq<Header>, i: nat)
    requires i == |hs|
    ensures Foreign(hs[i..]) == []
  {
  }

  /** Forward, up to the produce: the record that goes out is the one Forwarded
      names, and the record that came in is untouched, header array included. */
  method Build(chain: seq<string>, r: Record, o: P.Outcome, f: Failure)
      returns (out: Record?, err: Option<RouteError>)
    requires 0 < |chain| <= MAX_INT64 && r.headers.Valid()
    ensures err.None? <==> out != null
    ensures out == null ==> Forwarded(chain, r.View(), o, f) == Err(err.value)
    ensures out != null ==> fresh(out) && out.headers.Valid() && fresh(out.headers.arr)
    ensures out != null ==> Forwarded(chain, r.View(), o, f) == Ok(out.View())
    ensures r.View() == old(r.View()) && r.headers == old(r.headers)
  {
    hide Route, Applied;
    var hs := r.headers.arr[..r.headers.len];
    match Route(chain, Message(r.topic, r.key, r.value, hs), o, f)
    case Err(e) =>
      return null, Some(e);
    case Ok((dest, marks)) =>
      out := new Record(dest, r.key, r.value, r.headers);
      out.Apply(marks);
      return out, None;
  }
}
