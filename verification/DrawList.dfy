/** The draw list as an object (class DrawList of core/src/gui/smgui.h) and the recording side of
    the SmGui functions (core/src/gui/smgui.cpp). Every method is tied to the functions of
    `DrawListWire`, `Widgets` and `Replay`. */
module DrawLists {
  import opened DrawListWire
  import opened Widgets
  import opened Replay

  class DrawList {
    var elements: seq<Elem>

    constructor ()
      ensures elements == []
    {
      elements := [];
    }

    method PushStep(step: byte, forceSync: bool)
      modifies this
      ensures elements == old(elements) + [StepElem(step, forceSync)]
    {
      elements := elements + [StepElem(step, forceSync)];
    }

    method PushBool(b: bool)
      modifies this
      ensures elements == old(elements) + [BoolElem(b)]
    {
      elements := elements + [BoolElem(b)];
    }

    method PushInt(i: int32)
      modifies this
      ensures elements == old(elements) + [IntElem(i)]
    {
      elements := elements + [IntElem(i)];
    }

    method PushFloat(f: word)
      modifies this
      ensures elements == old(elements) + [FloatElem(f)]
    {
      elements := elements + [FloatElem(f)];
    }

    method PushString(str: bytes)
      modifies this
      ensures elements == old(elements) + [StringElem(str)]
    {
      elements := elements + [StringElem(str)];
    }

    // ---- bytes

    method GetSize() returns (size: nat)
      ensures size == Size(elements)
    {
      size := 0;
      var k := 0;
      while k < |elements|
        invariant k <= |elements| && size == Size(elements[..k])
      {
        StoredSnoc(elements[..k], elements[k]);
        assert elements[..k + 1] == elements[..k] + [elements[k]];
        size := size + ItemSize(elements[k]);
        k := k + 1;
      }
      assert elements[..k] == elements;
    }

    // storeItem(elem, &buf[at], len): the bytes of one element, if they fit in len.
    static method StoreItem(elem: Elem, buf: array<byte>, at: nat, len: int) returns (r: int)
      requires at + len <= buf.Length
      modifies buf
      ensures r == if ItemSize(elem) <= len then ItemSize(elem) else -1
      ensures r >= 0 ==> buf[at..at + r] == Item(elem)
      ensures forall k :: 0 <= k < buf.Length && (k < at || k >= at + (if r >= 0 then r else 1)) ==> buf[k] == old(buf[k])
    {
      hide Payload;
      if len < 1 { return -1; }
      buf[at] := TypeByte(elem);
      var payload := Payload(elem);
      if len - 1 < |payload| { return -1; }
      Copy(payload, buf, at + 1);
      assert buf[at..at + 1 + |payload|] == [buf[at]] + buf[at + 1..at + 1 + |payload|];
      return 1 + |payload|;
    }

    static method Copy(src: seq<byte>, buf: array<byte>, at: nat)
      requires at + |src| <= buf.Length
      modifies buf
      ensures buf[at..at + |src|] == src
      ensures forall k :: 0 <= k < buf.Length && (k < at || k >= at + |src|) ==> buf[k] == old(buf[k])
    {
      var k := 0;
      while k < |src|
        invariant k <= |src|
        invariant buf[at..at + k] == src[..k]
        invariant forall j :: 0 <= j < buf.Length && (j < at || j >= at + k) ==> buf[j] == old(buf[j])
      {
        buf[at + k] := src[k];
        assert buf[at..at + k + 1] == src[..k] + [src[k]];
        k := k + 1;
      }
    }

    method Store(buf: array<byte>, len: nat) returns (r: int)
      requires len <= buf.Length
      modifies buf
      ensures r == if Size(elements) <= len then Size(elements) else -1
      ensures r >= 0 ==> buf[..r] == Stored(elements)
    {
      hide Item, ItemSize, Stored, Size;
      assert elements[..0] == [] && Size([]) == 0 && Stored([]) == [] by { EmptyStored(); }
      var i, left, k := 0, len, 0;
      while k < |elements|
        invariant k <= |elements| && i + left == len && i == Size(elements[..k]) && left >= 0
        invariant buf[..i] == Stored(elements[..k])
      {
        ghost var was := buf[..];
        var count := StoreItem(elements[k], buf, i, left);
        StoredSnoc(elements[..k], elements[k]);
        assert elements[..k + 1] == elements[..k] + [elements[k]];
        if count < 0 {
          SizeMonotone(elements, k + 1);
          return -1;
        }
        assert buf[..i + count] == was[..i] + Item(elements[k]) by {
          assert buf[..i] == was[..i];
          assert buf[..i + count] == buf[..i] + buf[i..i + count];
        }
        i := i + count;
        left := left - count;
        k := k + 1;
      }
      assert elements[..k] == elements;
      return i;
    }

    // load(): the elements read, and the bytes consumed or -1. The memory must cover what
    // loadItem reads.
    method Load(data: array<byte>, len: int) returns (r: int)
      requires !LoadAll(data[..], len).Overran?
      modifies this
      ensures elements == LoadAll(data[..], len).elems
      ensures r == if LoadAll(data[..], len).All? && Validates(elements) then LoadAll(data[..], len).consumed else -1
    {
      hide LoadItem, Validates, LoadAll;
      elements := [];
      ghost var all := LoadAll(data[..], len);
      var i, left := 0, len;
      while left > 0
        invariant 0 <= i <= data.Length
        invariant !LoadAll(data[i..], left).Overran?
        invariant all == Onto(elements, i, LoadAll(data[i..], left))
        decreases left
      {
        LoadStep(elements, data[i..], i, left);
        match LoadItem(data[i..], left)
        case Refused => return -1;
        case Got(elem, consumed) =>
          assert data[i..][consumed..] == data[i + consumed..];
          i := i + consumed;
          left := left - consumed;
          elements := elements + [elem];
      }
      LoadEnd(data[i..], left);
      assert elements + [] == elements;
      var ok := Validate();
      r := if ok then i else -1;
    }

    // ---- validation

    method CheckTypes(first: nat, tags: seq<Tag>) returns (ok: bool)
      requires first <= |elements|
      ensures ok == Widgets.CheckTypes(elements[first..], tags)
    {
      if first + |tags| > |elements| { return false; }
      var k := 0;
      while k < |tags|
        invariant k <= |tags|
        invariant forall j :: 0 <= j < k ==> elements[first..][j].Tag() == tags[j]
      {
        if elements[first + k].Tag() != tags[k] {
          assert elements[first..][k].Tag() != tags[k];
          return false;
        }
        k := k + 1;
      }
      return true;
    }

    method Validate() returns (ok: bool)
      ensures ok == Validates(elements)
    {
      hide Signature;
      var i := 0;
      while i < |elements|
        invariant 0 <= i <= |elements|
        invariant Validates(elements) == Validates(elements[i..])
      {
        if !elements[i].StepElem? { return false; }
        var step := elements[i].step;
        i := i + 1;
        var fits := CheckTypes(i, Signature(step));
        assert elements[i - 1..][1..] == elements[i..];
        if !fits { return false; }
        assert elements[i..][|Signature(step)|..] == elements[i + |Signature(step)|..];
        i := i + |Signature(step)|;
      }
      return true;
    }

    // ---- drawing

    // The value of a pressed widget, one past its name, and the difference for the server.
    method TakeAnswer(i: nat, elem: Elem, r: Reply, d: Drawn) returns (d': Drawn)
      requires i + 1 < |elements| && elements[i].StringElem? && elem.StepElem?
      requires r.pressed && !KindOf(elem.step).NoValue?
      modifies this
      ensures var k := KindOf(elem.step);
              && elements == (if k.Press? then old(elements) else old(elements)[i + 1 := NewValue(k, r)])
              && d' == d.(diffId := old(elements)[i].str, diffValue := DiffOf(k, d.diffValue, r), sync := elem.forceSync)
    {
      var k, v := KindOf(elem.step), d.diffValue;
      match k {
        case Press => v := v.(tag := BoolTag);
        case IntValue => elements := elements[i + 1 := IntElem(r.i)]; v := v.(tag := IntTag, i := r.i);
        case FloatValue => elements := elements[i + 1 := FloatElem(r.f)]; v := v.(tag := FloatTag, f := r.f);
        case BoolValue => elements := elements[i + 1 := BoolElem(r.b)]; v := v.(tag := BoolTag, b := r.b);
        case StringValue => elements := elements[i + 1 := StringElem(CStr(r.s))]; v := v.(tag := StringTag, str := CStr(r.s));
      }
      d' := d.(diffId := elements[i].str, diffValue := v, sync := elem.forceSync);
    }

    // The loop that runs past a closed popup or table, and the step behind it.
    method SkipPast(i: nat, end: byte) returns (j: nat)
      requires i <= |elements|
      ensures j == i + FirstElem(elements[i..], end) + 1
    {
      j := i;
      assert FirstElem(elements[i..], end) == j - i + FirstElem(elements[j..], end);
      while j < |elements| && !(elements[j].StepElem? && elements[j].step == end)
        invariant i <= j <= |elements|
        invariant FirstElem(elements[i..], end) == j - i + FirstElem(elements[j..], end)
      {
        assert elements[j..][1..] == elements[j + 1..];
        j := j + 1;
      }
      j := j + 1;
    }

    // The step at i: its call is issued, and the user's answer is put into the list.
    method ShowAt(i: nat, client: Client, d: Drawn, ghost c: Call, ghost tail: seq<Elem>)
        returns (d': Drawn, open: bool)
      requires i < |elements| && c.Typed() && elements[i..] == c.Elems() + tail
      modifies this
      ensures var r := client(|d.trace|, c.Widget());
              && elements == old(elements)[..i] + Pressed(c, r).Elems() + tail
              && |elements| == |old(elements)| && |Pressed(c, r).Elems()| == |c.Elems()|
              && d' == Show(c, r, d) && open == r.open
    {
      hide Signature, WidgetAt, CStr, NewValue, DiffOf, KindOf;
      var elem := elements[i];
      assert elem == StepElem(c.step, c.force) by { assert elements[i] == elements[i..][0]; }
      assert elements[i + 1..] == c.args + tail by { assert elements[i + 1..] == elements[i..][1..]; }
      WidgetReadsArgs(elem.step, c.args, tail);
      var w := WidgetAt(elem.step, elements[i + 1..]);
      FillWidthStep(elem.step, elements[i + 1..]);
      PressableArgs(elem.step);
      PressedInPlace(elements, i, c, tail, client(|d.trace|, w));
      var r := client(|d.trace|, w);
      d' := if w.Unknown? then d else d.(trace := d.trace + [Event(w, w.Button? && d.fillWidth)]);
      if r.pressed && !KindOf(elem.step).NoValue? {
        assert elements[i + 1] == elements[i + 1..][0] == c.args[0];
        assert c.args[0].Tag() == Signature(c.step)[0];
        d' := TakeAnswer(i + 1, elem, r, d');
      }
      d' := d'.(fillWidth := elem.step == FILL_WIDTH);
      open := r.open;
    }

    // From the end of a step's arguments to the next step to draw, or past the end.
    method Advance(i: nat, step: byte, open: bool, ghost rest: seq<Call>) returns (j: nat)
      requires i <= |elements| && AllTyped(rest) && elements[i..] == Flat(rest)
      ensures var skip := if (step == BEGIN_POPUP || step == BEGIN_TABLE) && !open then Past(rest, EndOf(step)) else 0;
              j >= i && (if j <= |elements| then elements[j..] else []) == Flat(rest[skip..])
    {
      hide Signature, WidgetAt, Past, FirstElem, Flat;
      j := i;
      if (step == BEGIN_POPUP || step == BEGIN_TABLE) && !open {
        var end := EndOf(step);
        PressableArgs(step);
        SkipLandsOnStep(rest, end);
        j := SkipPast(i, end);
        if j <= |elements| { assert elements[j..] == elements[i..][FirstElem(elements[i..], end) + 1..]; }
      } else {
        assert rest[0..] == rest;
      }
    }

    /** One turn of draw()'s loop: `todo` are the calls the elements from i on stand for. The cursor
        comes out at the call that follows, or past the end. */
    method DrawOne(i: nat, client: Client, d: Drawn, ghost todo: seq<Call>) returns (j: nat, d': Drawn)
      requires i < |elements| && AllTyped(todo) && elements[i..] == Flat(todo) && todo != []
      modifies this
      ensures var c, r := todo[0], client(|d.trace|, todo[0].Widget());
              var skip := if Closes(c, r) then Past(todo[1..], EndOf(c.step)) else 0;
              && elements == old(elements)[..i] + Flat([Pressed(c, r)] + todo[1..])
              && |elements| == |old(elements)| && j > i
              && d' == Show(c, r, d)
              && |Behind(todo, client, d)| == 1 + skip
              && (if j <= |elements| then elements[j..] else []) == Flat(todo[1 + skip..])
    {
      hide Signature, WidgetAt, Show, Pressed, Past;
      ghost var c, rest, was := todo[0], todo[1..], elements;
      ghost var tail := Flat(rest);
      assert elements[i] == StepElem(c.step, c.force) by { assert elements[i] == elements[i..][0]; }
      var step := elements[i].step;
      ArityAgrees(step);
      var open: bool;
      d', open := ShowAt(i, client, d, c, tail);
      ghost var r := client(|d.trace|, c.Widget());
      FlatHead(Pressed(c, r), rest);
      assert elements == was[..i] + (Pressed(c, r).Elems() + tail);
      assert elements[i + 1 + Arity(step)..] == tail;
      j := Advance(i + 1 + Arity(step), step, open, rest);
      ghost var skip := if Closes(c, r) then Past(rest, EndOf(c.step)) else 0;
      assert rest[skip..] == todo[1 + skip..];
    }

    /** draw(): the calls issued to a client, the list with the user's values in it, and the
        difference left for the server. `done` are the calls behind the cursor. The list has been
        validated, so the test with which the code skips elements that are not steps never fires. */
    method Draw(client: Client, before: Drawn) returns (d: Drawn)
      requires Validates(elements)
      modifies this
      ensures AllTyped(Parse(old(elements)))
      ensures var (after, shown) := Play(Parse(old(elements)), client, before.(fillWidth := false));
              elements == Flat(after) && d == shown
    {
      ValidatesIsTyped(elements);
      EmptyFlat();
      hide *;
      ghost var todo := Parse(elements);
      d := before.(fillWidth := false);
      ghost var goal := Play(todo, client, d);
      ghost var done: seq<Call> := [];
      var i := 0;
      assert elements[0..] == elements && [] + todo == todo && [] + goal.0 == goal.0;
      while i < |elements|
        invariant AllTyped(todo) && 0 <= i
        invariant (if i <= |elements| then elements[i..] else []) == Flat(todo)
        invariant elements == Flat(done + todo)
        invariant goal == (done + Play(todo, client, d).0, Play(todo, client, d).1)
        decreases |elements| - i
      {
        ghost var cs, d0 := todo, d;
        assert elements[..i] == Flat(done) by { FlatAppend(done, cs); }
        i, d := DrawOne(i, client, d, cs);
        ghost var drawn := Behind(cs, client, d0);
        todo := cs[|drawn|..];
        TurnOfLoop(done, cs, client, d0);
        done := done + drawn;
      }
      NonEmptyFlat(todo, client, d);
      assert done + todo == done;
    }
  }

  // The calls one turn of the loop puts behind the cursor.
  ghost function Behind(cs: seq<Call>, client: Client, d: Drawn): (r: seq<Call>)
    requires cs != [] && AllTyped(cs)
    ensures 0 < |r| <= |cs|
  {
    var r := client(|d.trace|, cs[0].Widget());
    var skip := if Closes(cs[0], r) then Past(cs[1..], EndOf(cs[0].step)) else 0;
    [Pressed(cs[0], r)] + cs[1..1 + skip]
  }

  lemma BehindSplits(cs: seq<Call>, client: Client, d: Drawn)
    requires AllTyped(cs) && cs != []
    ensures var c := Pressed(cs[0], client(|d.trace|, cs[0].Widget()));
            [c] + cs[1..] == Behind(cs, client, d) + cs[|Behind(cs, client, d)|..]
  {
    hide WidgetAt, Signature, Show, Pressed, Closes, Past, EndOf, KindOf, Call.Typed;
  }

  lemma PlayStep(cs: seq<Call>, client: Client, d: Drawn)
    requires AllTyped(cs) && cs != []
    ensures AllTyped(cs[|Behind(cs, client, d)|..])
    ensures var rest := Play(cs[|Behind(cs, client, d)|..], client, Show(cs[0], client(|d.trace|, cs[0].Widget()), d));
            Play(cs, client, d) == (Behind(cs, client, d) + rest.0, rest.1)
  {
    hide WidgetAt, Signature, Show, Pressed, Closes, Past, EndOf, KindOf, Call.Typed;
  }

  // What a turn of the loop does to the calls behind and ahead of the cursor.
  lemma TurnOfLoop(done: seq<Call>, cs: seq<Call>, client: Client, d: Drawn)
    requires AllTyped(cs) && cs != []
    ensures var r, drawn := client(|d.trace|, cs[0].Widget()), Behind(cs, client, d);
            && AllTyped(cs[|drawn|..])
            && Flat(done) + Flat([Pressed(cs[0], r)] + cs[1..]) == Flat((done + drawn) + cs[|drawn|..])
            && var rest := Play(cs[|drawn|..], client, Show(cs[0], r, d));
               (done + Play(cs, client, d).0, Play(cs, client, d).1) == ((done + drawn) + rest.0, rest.1)
  {
    hide Show, Flat, WidgetAt, Signature, Pressed, Play, Behind, Closes, Past;
    var r, drawn := client(|d.trace|, cs[0].Widget()), Behind(cs, client, d);
    BehindSplits(cs, client, d);
    PlayStep(cs, client, d);
    var rest := Play(cs[|drawn|..], client, Show(cs[0], r, d));
    FlatAppend(done, drawn + cs[|drawn|..]);
    assert done + (drawn + cs[|drawn|..]) == (done + drawn) + cs[|drawn|..];
    assert done + (drawn + rest.0) == (done + drawn) + rest.0;
  }

  // Replacing the value in the list is replacing it in the call.
  lemma PressedInPlace(es: seq<Elem>, i: nat, c: Call, tail: seq<Elem>, r: Reply)
    requires i <= |es| && c.Typed() && es[i..] == c.Elems() + tail
    ensures |Pressed(c, r).Elems()| == |c.Elems()| && |es| == i + |c.Elems()| + |tail|
    ensures var k := KindOf(c.step);
            es[..i] + Pressed(c, r).Elems() + tail ==
              if !r.pressed || k.NoValue? || k.Press? then es else es[i + 2 := NewValue(k, r)]
  {
    hide Signature, NewValue, KindOf;
    PressableArgs(c.step);
    assert es == es[..i] + c.Elems() + tail;
  }

  lemma WidgetReadsArgs(step: byte, args: seq<Elem>, tail: seq<Elem>)
    requires |args| == |Signature(step)| && Widgets.CheckTypes(args, Signature(step))
    ensures Widgets.CheckTypes(args + tail, Signature(step)) && WidgetAt(step, args + tail) == WidgetAt(step, args)
  {
    hide CStr, SplitItems;
  }

  lemma EmptyFlat()
    ensures Flat([]) == []
  {
  }

  lemma NonEmptyFlat(cs: seq<Call>, client: Client, d: Drawn)
    requires Flat(cs) == []
    ensures cs == [] && Play(cs, client, d) == ([], d)
  {
  }

  lemma FlatHead(c: Call, cs: seq<Call>)
    ensures Flat([c] + cs) == c.Elems() + Flat(cs)
  {
    assert ([c] + cs)[1..] == cs;
  }

  lemma {:induction false} FlatAppend(xs: seq<Call>, ys: seq<Call>)
    ensures Flat(xs + ys) == Flat(xs) + Flat(ys)
  {
    hide Call.Elems;
    if xs == [] {
      assert xs + ys == ys;
    } else {
      FlatAppend(xs[1..], ys);
      assert (xs + ys)[0] == xs[0] && (xs + ys)[1..] == xs[1..] + ys;
      var head, mid, tail := xs[0].Elems(), Flat(xs[1..]), Flat(ys);
      assert head + (mid + tail) == (head + mid) + tail;
    }
  }

  /** What loading comes to when `es` have been loaded from the first i bytes. */
  function Onto(es: seq<Elem>, i: nat, rest: LoadedAll): LoadedAll {
    match rest
    case Overran => Overran
    case Partial(more) => Partial(es + more)
    case All(more, m) => All(es + more, i + m)
  }

  lemma LoadStep(es: seq<Elem>, data: seq<byte>, i: nat, len: int)
    requires len > 0 && !LoadAll(data, len).Overran?
    ensures match LoadItem(data, len)
            case Overrun => false
            case Refused => Onto(es, i, LoadAll(data, len)) == Partial(es)
            case Got(e, n) =>
              && !LoadAll(data[n..], len - n).Overran?
              && Onto(es, i, LoadAll(data, len)) == Onto(es + [e], i + n, LoadAll(data[n..], len - n))
  {
    hide LoadItem;
    assert es + [] == es;
    match LoadItem(data, len)
    case Overrun =>
    case Refused =>
    case Got(e, n) =>
      var rest := LoadAll(data[n..], len - n);
      if !rest.Overran? { assert es + ([e] + rest.elems) == (es + [e]) + rest.elems; }
  }

  lemma LoadEnd(data: seq<byte>, len: int)
    requires len <= 0
    ensures LoadAll(data, len) == All([], 0)
  {
  }

  lemma EmptyStored()
    ensures Size([]) == 0 && Stored([]) == []
  {
  }

  lemma {:induction false} SizeMonotone(es: seq<Elem>, k: nat)
    requires k <= |es|
    ensures Size(es[..k]) <= Size(es)
  {
    if k > 0 {
      SizeMonotone(es[1..], k - 1);
      assert es[..k][1..] == es[1..][..k - 1];
    }
  }
}
