/** Vector diffs translated for list listeners: applying the translated updates
    to the translated list is translating the updated list. */
module VectorDiffs {
  import opened Types

  const U32_MAX: nat := 0xFFFF_FFFF

  datatype Diff<T> =
    | Append(values: seq<T>)
    | Clear
    | PushFront(value: T)
    | PushBack(value: T)
    | PopFront
    | PopBack
    | Insert(index: nat, value: T)
    | Set(index: nat, value: T)
    | Remove(index: nat)
    | Truncate(length: nat)
    | Reset(values: seq<T>)

  /** The diffs a list of this length can emit. */
  predicate Applicable<T>(d: Diff<T>, length: nat) {
    match d
    case Insert(i, _) => i <= length
    case Set(i, _) => i < length
    case Remove(i) => i < length
    case Truncate(n) => n <= length
    case _ => true
  }

  function ApplyDiff<T>(d: Diff<T>, s: seq<T>): seq<T>
    requires Applicable(d, |s|)
  {
    match d
    case Append(vs) => s + vs
    case Clear => []
    case PushFront(v) => [v] + s
    case PushBack(v) => s + [v]
    case PopFront => if s == [] then [] else s[1..]
    case PopBack => if s == [] then [] else s[..|s| - 1]
    case Insert(i, v) => s[..i] + [v] + s[i..]
    case Set(i, v) => s[i := v]
    case Remove(i) => s[..i] + s[i + 1..]
    case Truncate(n) => s[..n]
    case Reset(vs) => vs
  }

  /** An insertion puts the value at its position and shifts what follows, a removal
      undoes it, and a replacement changes one position. */
  lemma PositionEffects<T>(s: seq<T>, i: nat, v: T)
    requires i <= |s|
    ensures var inserted := ApplyDiff(Insert(i, v), s);
            && |inserted| == |s| + 1 && inserted[i] == v
            && (forall j :: 0 <= j < |s| ==> s[j] == inserted[if j < i then j else j + 1])
            && ApplyDiff(Remove(i), inserted) == s
    ensures i < |s| ==>
              var replaced := ApplyDiff(Set(i, v), s);
              |replaced| == |s| && replaced[i] == v && forall j :: 0 <= j < |s| && j != i ==> replaced[j] == s[j]
  {
  }

  /** Pushes are insertions at the ends, and pops undo them. */
  lemma FrontEffects<T>(s: seq<T>, v: T)
    ensures ApplyDiff(PushFront(v), s) == ApplyDiff(Insert(0, v), s)
    ensures ApplyDiff(PopFront, ApplyDiff(PushFront(v), s)) == s
    ensures s == [] ==> ApplyDiff(PopFront, s) == s
  {
    assert ([v] + s)[1..] == s;
    assert s[..0] + [v] + s[0..] == [v] + s;
  }

  lemma BackEffects<T>(s: seq<T>, v: T)
    ensures ApplyDiff(PushBack(v), s) == ApplyDiff(Insert(|s|, v), s)
    ensures ApplyDiff(PopBack, ApplyDiff(PushBack(v), s)) == s
    ensures s == [] ==> ApplyDiff(PopBack, s) == s
  {
    assert (s + [v])[..|s|] == s;
    assert s[..|s|] + [v] + s[|s|..] == s + [v];
  }

  /** Appending pushes the values back one by one, truncating undoes it, and clearing
      and resetting forget the list. */
  lemma ListEffects<T>(s: seq<T>, vs: seq<T>)
    ensures vs == [] ==> ApplyDiff(Append(vs), s) == s
    ensures vs != [] ==>
              ApplyDiff(Append(vs), s) == ApplyDiff(PushBack(vs[|vs| - 1]), ApplyDiff(Append(vs[..|vs| - 1]), s))
    ensures |s| <= |ApplyDiff(Append(vs), s)|
    ensures ApplyDiff(Truncate(|s|), ApplyDiff(Append(vs), s)) == s
    ensures ApplyDiff(Clear, s) == [] && ApplyDiff(Reset(vs), s) == vs
  {
    assert (s + vs)[..|s|] == s;
    if vs == [] {
    } else {
      assert s + vs == s + vs[..|vs| - 1] + [vs[|vs| - 1]];
    }
  }

  function Image<T, U>(f: T -> U, s: seq<T>): seq<U> {
    seq(|s|, i requires 0 <= i < |s| => f(s[i]))
  }

  /** The conversion of an index: the room list panics when it does not fit a u32,
      directory search truncates it. */
  datatype Conversion = Checked | Truncating

  function ToU32(c: Conversion, i: nat): Option<nat> {
    if i <= U32_MAX then Some(i)
    else match c
      case Checked => None
      case Truncating => Some(i % (U32_MAX + 1))
  }

  /** The update handed to a listener, or `None` where the conversion panics. */
  function Translate<T, U>(c: Conversion, f: T -> U, d: Diff<T>): Option<Diff<U>> {
    match d
    case Append(vs) => Some(Append(Image(f, vs)))
    case Clear => Some(Clear)
    case PushFront(v) => Some(PushFront(f(v)))
    case PushBack(v) => Some(PushBack(f(v)))
    case PopFront => Some(PopFront)
    case PopBack => Some(PopBack)
    case Insert(i, v) => if ToU32(c, i).None? then None else Some(Insert(ToU32(c, i).value, f(v)))
    case Set(i, v) => if ToU32(c, i).None? then None else Some(Set(ToU32(c, i).value, f(v)))
    case Remove(i) => if ToU32(c, i).None? then None else Some(Remove(ToU32(c, i).value))
    case Truncate(n) => if ToU32(c, n).None? then None else Some(Truncate(ToU32(c, n).value))
    case Reset(vs) => Some(Reset(Image(f, vs)))
  }

  /** The elementwise image of a diff, at the same positions. */
  function DiffImage<T, U>(f: T -> U, d: Diff<T>): Diff<U> {
    match d
    case Append(vs) => Append(Image(f, vs))
    case Clear => Clear
    case PushFront(v) => PushFront(f(v))
    case PushBack(v) => PushBack(f(v))
    case PopFront => PopFront
    case PopBack => PopBack
    case Insert(i, v) => Insert(i, f(v))
    case Set(i, v) => Set(i, f(v))
    case Remove(i) => Remove(i)
    case Truncate(n) => Truncate(n)
    case Reset(vs) => Reset(Image(f, vs))
  }

  predicate Fits<T>(d: Diff<T>) {
    match d
    case Insert(i, _) => i <= U32_MAX
    case Set(i, _) => i <= U32_MAX
    case Remove(i) => i <= U32_MAX
    case Truncate(n) => n <= U32_MAX
    case _ => true
  }

  /** A translation, checked or truncating, is the diff's image exactly when its position fits. */
  lemma TranslateExact<T, U>(c: Conversion, f: T -> U, d: Diff<T>)
    ensures Translate(c, f, d) == Some(DiffImage(f, d)) <==> Fits(d)
  {
  }

  /** Taking images commutes with applying. */
  lemma ImageCommutes<T, U>(f: T -> U, d: Diff<T>, s: seq<T>)
    requires Applicable(d, |s|)
    ensures ApplyDiff(DiffImage(f, d), Image(f, s)) == Image(f, ApplyDiff(d, s))
  {
    var applied, image := ApplyDiff(DiffImage(f, d), Image(f, s)), Image(f, ApplyDiff(d, s));
    assert |applied| == |image|;
    assert forall i :: 0 <= i < |image| ==> applied[i] == image[i];
  }

  /** A longer list shows the difference: the room list panics, and a directory
      listener removes another entry. */
  lemma LongListsDiverge()
    ensures var s := seq(U32_MAX + 2, i requires 0 <= i < U32_MAX + 2 => i);
            var d := Remove(U32_MAX + 1);
            var f := (n: int) => n;
            && Applicable(d, |s|)
            && Translate(Checked, f, d).None?
            && Translate(Truncating, f, d).Some? && Applicable(Translate(Truncating, f, d).value, |s|)
            && ApplyDiff(Translate(Truncating, f, d).value, Image(f, s)) != Image(f, ApplyDiff(d, s))
  {
    var s := seq(U32_MAX + 2, i requires 0 <= i < U32_MAX + 2 => i);
    var d := Remove(U32_MAX + 1);
    var f := (n: int) => n;
    assert Translate(Truncating, f, d) == Some(Remove(0));
    assert ApplyDiff(Remove(0), Image(f, s))[0] == 1;
    assert Image(f, ApplyDiff(d, s))[0] == 0;
  }

  // ---- Batches ----

  /** Every diff can be emitted by the list it meets. */
  ghost predicate Emitted<T>(ds: seq<Diff<T>>, s: seq<T>) {
    ds != [] ==> Applicable(ds[0], |s|) && Emitted(ds[1..], ApplyDiff(ds[0], s))
  }

  predicate AllFit<T>(ds: seq<Diff<T>>) {
    forall i :: 0 <= i < |ds| ==> Fits(ds[i])
  }

  /** No list a diff meets is longer than a u32 can count. */
  ghost predicate StaysShort<T>(ds: seq<Diff<T>>, s: seq<T>)
    requires Emitted(ds, s)
  {
    |s| <= U32_MAX && (ds != [] ==> StaysShort(ds[1..], ApplyDiff(ds[0], s)))
  }

  /** Positions fit as long as the lists stay short. */
  lemma {:induction false} ShortListsFit<T>(ds: seq<Diff<T>>, s: seq<T>)
    requires Emitted(ds, s) && StaysShort(ds, s)
    ensures AllFit(ds)
    decreases ds
  {
    if ds == [] {
    } else {
      ShortListsFit(ds[1..], ApplyDiff(ds[0], s));
      assert ds == [ds[0]] + ds[1..];
    }
  }

  ghost function ApplyAll<T>(ds: seq<Diff<T>>, s: seq<T>): seq<T>
    requires Emitted(ds, s)
  {
    if ds == [] then s else ApplyAll(ds[1..], ApplyDiff(ds[0], s))
  }

  /** Batches the source list emits one after the other, with positions that fit. */
  ghost predicate AllEmitted<T>(batches: seq<seq<Diff<T>>>, s: seq<T>) {
    batches != [] ==>
      Emitted(batches[0], s) && AllFit(batches[0]) && AllEmitted(batches[1..], ApplyAll(batches[0], s))
  }

  /** The images of the source list after each batch. */
  ghost function Snapshots<T, U>(f: T -> U, batches: seq<seq<Diff<T>>>, s: seq<T>): seq<seq<U>>
    requires AllEmitted(batches, s)
  {
    if batches == [] then []
    else [Image(f, ApplyAll(batches[0], s))] + Snapshots(f, batches[1..], ApplyAll(batches[0], s))
  }

  /** The batch handed to a listener, or `None` where a conversion panics. */
  function TranslateAll<T, U>(c: Conversion, f: T -> U, ds: seq<Diff<T>>): Option<seq<Diff<U>>> {
    if ds == [] then Some([])
    else if Translate(c, f, ds[0]).None? || TranslateAll(c, f, ds[1..]).None? then None
    else Some([Translate(c, f, ds[0]).value] + TranslateAll(c, f, ds[1..]).value)
  }

  /** Translating a whole batch commutes with applying it. */
  lemma {:induction false} BatchCommutes<T, U>(c: Conversion, f: T -> U, ds: seq<Diff<T>>, s: seq<T>)
    requires Emitted(ds, s) && AllFit(ds)
    ensures TranslateAll(c, f, ds).Some?
    ensures Emitted(TranslateAll(c, f, ds).value, Image(f, s))
    ensures ApplyAll(TranslateAll(c, f, ds).value, Image(f, s)) == Image(f, ApplyAll(ds, s))
    decreases ds
  {
    if ds == [] {
    } else {
      var next := ApplyDiff(ds[0], s);
      TranslateExact(c, f, ds[0]);
      ImageCommutes(f, ds[0], s);
      BatchCommutes(c, f, ds[1..], next);
      var updates := TranslateAll(c, f, ds).value;
      assert updates[0] == DiffImage(f, ds[0]) && updates[1..] == TranslateAll(c, f, ds[1..]).value;
      assert ApplyDiff(updates[0], Image(f, s)) == Image(f, next);
    }
  }

  /** A listener applies what it is told, and remembers what it held after each call. */
  class Listener<U> {
    var entries: seq<U>
    ghost var held: seq<seq<U>>

    constructor ()
      ensures entries == [] && held == []
    {
      entries, held := [], [];
    }

    method OnUpdate(updates: seq<Diff<U>>)
      requires Emitted(updates, entries)
      modifies this
      ensures entries == ApplyAll(updates, old(entries)) && held == old(held) + [entries]
    {
      var i := 0;
      while i < |updates|
        invariant 0 <= i <= |updates|
        invariant Emitted(updates[i..], entries) && ApplyAll(updates[i..], entries) == ApplyAll(updates, old(entries))
        invariant held == old(held)
      {
        assert updates[i..][0] == updates[i] && updates[i..][1..] == updates[i + 1..];
        entries := ApplyDiff(updates[i], entries);
        i := i + 1;
      }
      held := held + [entries];
    }
  }

  /** One batch, handed to a listener that holds the image of the list before it. */
  method ForwardBatch<T, U>(c: Conversion, f: T -> U, ds: seq<Diff<T>>, listener: Listener<U>, ghost s: seq<T>)
    requires Emitted(ds, s) && AllFit(ds) && listener.entries == Image(f, s)
    modifies listener
    ensures listener.entries == Image(f, ApplyAll(ds, s)) && listener.held == old(listener.held) + [listener.entries]
  {
    BatchCommutes(c, f, ds, s);
    listener.OnUpdate(TranslateAll(c, f, ds).value);
  }

  lemma SnapshotsStep<T, U>(f: T -> U, held: seq<seq<U>>, batches: seq<seq<Diff<T>>>, s: seq<T>)
    requires batches != [] && AllEmitted(batches, s)
    ensures var next := ApplyAll(batches[0], s);
            held + [Image(f, next)] + Snapshots(f, batches[1..], next) == held + Snapshots(f, batches, s)
  {
  }

  /** Room list updates: every batch, to a listener that already holds the image of
      the list, leaves it with the image of the source list after each batch. */
  method ForwardBatches<T, U>(
      c: Conversion, f: T -> U, ghost initial: seq<T>, batches: seq<seq<Diff<T>>>, listener: Listener<U>)
    requires AllEmitted(batches, initial) && listener.entries == Image(f, initial)
    modifies listener
    ensures listener.held == old(listener.held) + Snapshots(f, batches, initial)
  {
    ghost var source := initial;
    var rest := batches;
    while rest != []
      invariant AllEmitted(rest, source) && listener.entries == Image(f, source)
      invariant listener.held + Snapshots(f, rest, source) == old(listener.held) + Snapshots(f, batches, initial)
      decreases |rest|
    {
      SnapshotsStep(f, listener.held, rest, source);
      ForwardBatch(c, f, rest[0], listener, source);
      source := ApplyAll(rest[0], source);
      rest := rest[1..];
    }
  }

  /** Directory search results: a `Reset` with the initial list to a listener in any
      state, then every batch. */
  method ForwardResults<T, U>(
      c: Conversion, f: T -> U, initial: seq<T>, batches: seq<seq<Diff<T>>>, listener: Listener<U>)
    requires AllEmitted(batches, initial)
    modifies listener
    ensures listener.held == old(listener.held) + [Image(f, initial)] + Snapshots(f, batches, initial)
  {
    var reset := [Reset(Image(f, initial))];
    assert reset[1..] == [] && ApplyDiff(reset[0], listener.entries) == Image(f, initial);
    assert Emitted(reset[1..], Image(f, initial));
    listener.OnUpdate(reset);
    ForwardBatches(c, f, initial, batches, listener);
  }
}
