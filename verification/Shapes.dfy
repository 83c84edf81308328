/** Object shapes and their caches (crates/eronom-core/src/shape.rs): three caches answer for one
    function, from a list of keys to a descriptor that maps the i-th key to offset i. */
module Shapes {
  import opened Options

  // A key is a boxed word; two words can stand for one key, as two strings of equal content do.
  type Word = nat

  type Content = int

  type Fields = map<Content, nat>

  // A descriptor is shared by reference: its id tells it from every other.
  datatype Desc = Desc(id: nat, fields: Fields)

  // The contents of a list of keys.
  function Contents(keyOf: Word -> Content, keys: seq<Word>): (cs: seq<Content>)
    ensures |cs| == |keys| && forall i :: 0 <= i < |keys| ==> cs[i] == keyOf(keys[i])
  {
    seq(|keys|, i requires 0 <= i < |keys| => keyOf(keys[i]))
  }

  // Each key is entered with its position; a later equal key takes an earlier one's place.
  function FieldsOf(keyOf: Word -> Content, keys: seq<Word>): Fields
    decreases |keys|
  {
    if keys == [] then map[] else FieldsOf(keyOf, keys[..|keys| - 1])[keyOf(keys[|keys| - 1]) := |keys| - 1]
  }

  function Offsets(n: nat): (o: seq<nat>)
    ensures |o| == n && forall i :: 0 <= i < n ==> o[i] == i
  {
    seq(n, i => i)
  }

  // The fields list these contents: the i-th has offset i, and there are no others.
  predicate Lists(fields: Fields, cs: seq<Content>)
  {
    && (forall i :: 0 <= i < |cs| ==> cs[i] in fields && fields[cs[i]] == i)
    && (forall c :: c in fields ==> c in cs)
  }

  predicate AllDifferent(cs: seq<Content>)
  {
    forall i, j :: 0 <= i < j < |cs| ==> cs[i] != cs[j]
  }

  // A descriptor made from keys lists them exactly when they stand for different keys.
  lemma {:induction false} FieldsList(keyOf: Word -> Content, keys: seq<Word>)
    ensures Lists(FieldsOf(keyOf, keys), Contents(keyOf, keys)) <==> AllDifferent(Contents(keyOf, keys))
    ensures forall c :: c in FieldsOf(keyOf, keys) <==> c in Contents(keyOf, keys)
    decreases |keys|
  {
    var cs := Contents(keyOf, keys);
    if keys != [] {
      var init := keys[..|keys| - 1];
      FieldsList(keyOf, init);
      assert Contents(keyOf, init) == cs[..|keys| - 1];
      assert cs == cs[..|keys| - 1] + [cs[|keys| - 1]];
      if AllDifferent(cs) {
        assert AllDifferent(cs[..|keys| - 1]);
      }
    }
  }

  // Adding a property: the next offset.
  function Extended(fields: Fields, c: Content): Fields
  {
    fields[c := |fields|]
  }

  lemma {:induction false} ListedSize(fields: Fields, cs: seq<Content>)
    requires Lists(fields, cs)
    ensures |fields| == |cs|
    decreases |cs|
  {
    if cs == [] {
      forall c ensures c !in fields {
        assert c in fields ==> c in cs;
      }
      assert fields.Keys == {};
      assert |fields| == |fields.Keys|;
    } else {
      var last, init := cs[|cs| - 1], cs[..|cs| - 1];
      var smaller := fields - {last};
      assert forall i :: 0 <= i < |init| ==> init[i] in smaller && smaller[init[i]] == i;
      forall c | c in smaller ensures c in init {
        var i :| 0 <= i < |cs| && cs[i] == c;
        assert c == init[i];
      }
      ListedSize(smaller, init);
      assert fields == smaller[last := fields[last]];
    }
  }

  // One more key: the grown fields list one more content exactly when the old ones listed theirs
  // and the key is new. A key that is there already leaves a gap.
  lemma ExtendedLists(fields: Fields, cs: seq<Content>, c: Content)
    requires forall x :: x in fields <==> x in cs
    requires Lists(fields, cs) <==> AllDifferent(cs)
    ensures forall x :: x in Extended(fields, c) <==> x in cs + [c]
    ensures Lists(Extended(fields, c), cs + [c]) <==> AllDifferent(cs + [c])
  {
    var ds := cs + [c];
    assert forall i :: 0 <= i < |cs| ==> ds[i] == cs[i];
    assert ds[|cs|] == c;
    if AllDifferent(ds) {
      assert AllDifferent(cs);
      ListedSize(fields, cs);
    }
  }

  // ---------------------------------------------------------------- one cache instead of four

  // What a descriptor is asked for: a whole list of keys, or one more key for a descriptor.
  datatype Origin = FromKeys(keys: seq<Word>) | FromParent(parent: nat, key: Word)

  datatype Book = Book(entries: map<Origin, Desc>, next: nat)

  function Ask(book: Book, o: Origin, fields: Fields): (Book, Desc)
  {
    if o in book.entries then (book, book.entries[o])
    else var d := Desc(book.next, fields); (Book(book.entries[o := d], book.next + 1), d)
  }

  // A declaration is a descriptor made elsewhere, such as a named struct's.
  datatype Op = Shape(keys: seq<Word>) | Transition(parent: nat, key: Word) | Declare(fields: Fields) | Reset

  type Log = seq<Option<Desc>>

  // A transition names its parent by the step that returned it.
  predicate Returned(log: Log, i: nat)
  {
    i < |log| && log[i].Some?
  }

  function Step(keyOf: Word -> Content, book: Book, log: Log, op: Op): (Book, Option<Desc>)
  {
    match op
    case Shape(keys) => var (b, d) := Ask(book, FromKeys(keys), FieldsOf(keyOf, keys)); (b, Some(d))
    case Transition(p, key) =>
      if !Returned(log, p) then (book, None) else
      var (b, d) := Ask(book, FromParent(log[p].value.id, key), Extended(log[p].value.fields, keyOf(key))); (b, Some(d))
    case Declare(fields) => (book.(next := book.next + 1), Some(Desc(book.next, fields)))
    case Reset => (book.(entries := map[]), None)
  }

  function Run(keyOf: Word -> Content, ops: seq<Op>): (r: (Book, Log))
    ensures |r.1| == |ops|
    decreases |ops|
  {
    if ops == [] then (Book(map[], 0), []) else
    var (book, log) := Run(keyOf, ops[..|ops| - 1]);
    var (b, d) := Step(keyOf, book, log, ops[|ops| - 1]);
    (b, log + [d])
  }

  function OriginAt(ops: seq<Op>, log: Log, i: nat): Option<Origin>
    requires i < |ops| == |log|
  {
    match ops[i]
    case Shape(keys) => Some(FromKeys(keys))
    case Transition(p, key) => if p < i && Returned(log, p) then Some(FromParent(log[p].value.id, key)) else None
    case _ => None
  }

  predicate NoReset(ops: seq<Op>, i: nat, j: nat)
    requires j <= |ops|
  {
    forall k :: i <= k < j ==> ops[k] != Reset
  }

  // The fields that a step's answer must have.
  predicate FieldsRight(keyOf: Word -> Content, ops: seq<Op>, log: Log, i: nat)
    requires i < |ops| == |log|
  {
    Returned(log, i) ==>
      match ops[i]
      case Shape(keys) => log[i].value.fields == FieldsOf(keyOf, keys)
      case Transition(p, key) =>
        p < i && Returned(log, p) && log[i].value.fields == Extended(log[p].value.fields, keyOf(key))
      case Declare(fields) => log[i].value.fields == fields
      case Reset => false
  }

  predicate SuppliedBy(ops: seq<Op>, log: Log, o: Origin, d: Desc, i: nat)
    requires |ops| == |log|
  {
    i < |ops| && OriginAt(ops, log, i) == Some(o) && log[i] == Some(d) && NoReset(ops, i, |ops|)
  }

  ghost predicate Supplied(ops: seq<Op>, log: Log, o: Origin, d: Desc)
    requires |ops| == |log|
  {
    exists i: nat :: SuppliedBy(ops, log, o, d, i)
  }

  ghost predicate BookRight(ops: seq<Op>, book: Book, log: Log)
    requires |ops| == |log|
  {
    && (forall o :: o in book.entries ==> Supplied(ops, log, o, book.entries[o]))
    && (forall i {:trigger OriginAt(ops, log, i)} ::
         0 <= i < |ops| && OriginAt(ops, log, i).Some? && NoReset(ops, i, |ops|) ==>
         OriginAt(ops, log, i).value in book.entries && log[i] == Some(book.entries[OriginAt(ops, log, i).value]))
  }

  // Two steps return one object exactly when they ask for the same thing with no reset between.
  predicate SameWhen(ops: seq<Op>, log: Log, i: nat, j: nat)
    requires i < j < |ops| == |log|
  {
    Returned(log, i) && Returned(log, j) ==>
      && (log[i].value.id == log[j].value.id ==> log[i] == log[j])
      && (log[i] == log[j] <==>
        OriginAt(ops, log, i) == OriginAt(ops, log, j) && OriginAt(ops, log, i).Some? && NoReset(ops, i, j))
  }

  ghost predicate LogRight(keyOf: Word -> Content, ops: seq<Op>, book: Book, log: Log)
    requires |ops| == |log|
  {
    && (forall i :: 0 <= i < |ops| && log[i].Some? ==> log[i].value.id < book.next)
    && (forall i :: 0 <= i < |ops| ==> FieldsRight(keyOf, ops, log, i))
    && (forall i :: 0 <= i < |ops| && OriginAt(ops, log, i).Some? ==> log[i].Some?)
    && (forall i, j :: 0 <= i < j < |ops| ==> SameWhen(ops, log, i, j))
  }

  ghost predicate Grows(keyOf: Word -> Content, ops: seq<Op>, book: Book, log: Log)
  {
    && 0 < |ops| && |log| == |ops| - 1
    && BookRight(ops[..|log|], book, log) && LogRight(keyOf, ops[..|log|], book, log)
  }

  function Grown(keyOf: Word -> Content, ops: seq<Op>, book: Book, log: Log): (r: (Book, Log))
    requires 0 < |ops| && |log| == |ops| - 1
    ensures |r.1| == |ops|
  {
    var (b, d) := Step(keyOf, book, log, ops[|log|]);
    (b, log + [d])
  }

  // A later step changes nothing that is said of earlier ones.
  lemma EarlierSame(keyOf: Word -> Content, ops: seq<Op>, log: Log, log': Log)
    requires 0 < |ops| == |log'| && log == log'[..|ops| - 1]
    ensures forall i :: 0 <= i < |log| ==> OriginAt(ops[..|log|], log, i) == OriginAt(ops, log', i)
    ensures forall i :: 0 <= i < |log| ==>
      (FieldsRight(keyOf, ops[..|log|], log, i) <==> FieldsRight(keyOf, ops, log', i))
    ensures forall i, j :: 0 <= i < j < |log| ==> (SameWhen(ops[..|log|], log, i, j) <==> SameWhen(ops, log', i, j))
  {
    forall i | 0 <= i < |log| ensures OriginAt(ops[..|log|], log, i) == OriginAt(ops, log', i) {
    }
    forall i | 0 <= i < |log| ensures FieldsRight(keyOf, ops[..|log|], log, i) <==> FieldsRight(keyOf, ops, log', i) {
    }
    forall i, j | 0 <= i < j < |log| ensures SameWhen(ops[..|log|], log, i, j) <==> SameWhen(ops, log', i, j) {
    }
  }

  // Every entry was the answer of a step since the last reset.
  lemma EntrySupplied(keyOf: Word -> Content, ops: seq<Op>, book: Book, log: Log, o: Origin)
    requires Grows(keyOf, ops, book, log) && o in Grown(keyOf, ops, book, log).0.entries
    ensures var (book', log') := Grown(keyOf, ops, book, log); Supplied(ops, log', o, book'.entries[o])
  {
    hide FieldsRight, SameWhen;
    var n := |log|;
    var (book', log') := Grown(keyOf, ops, book, log);
    EarlierSame(keyOf, ops, log, log');
    var d := book'.entries[o];
    if o in book.entries {
      assert Supplied(ops[..n], log, o, d);
      var i: nat :| SuppliedBy(ops[..n], log, o, d, i);
      assert SuppliedBy(ops, log', o, d, i);
    } else {
      assert SuppliedBy(ops, log', o, d, n);
    }
  }

  // Every answer since the last reset is an entry.
  lemma AnswerEntered(keyOf: Word -> Content, ops: seq<Op>, book: Book, log: Log, i: nat)
    requires Grows(keyOf, ops, book, log)
    requires i < |ops| && OriginAt(ops, Grown(keyOf, ops, book, log).1, i).Some? && NoReset(ops, i, |ops|)
    ensures
      var (book', log') := Grown(keyOf, ops, book, log);
      var o := OriginAt(ops, log', i).value;
      o in book'.entries && log'[i] == Some(book'.entries[o])
  {
    hide FieldsRight, SameWhen, Supplied;
    var n := |log|;
    var (book', log') := Grown(keyOf, ops, book, log);
    EarlierSame(keyOf, ops, log, log');
    if i < n {
      assert OriginAt(ops[..n], log, i) == OriginAt(ops, log', i);
      assert ops[n] != Reset;
      assert NoReset(ops[..n], i, n);
    }
  }

  lemma BookKept(keyOf: Word -> Content, ops: seq<Op>, book: Book, log: Log)
    requires Grows(keyOf, ops, book, log)
    ensures var (book', log') := Grown(keyOf, ops, book, log); BookRight(ops, book', log')
  {
    hide FieldsRight, SameWhen, Supplied, NoReset, Grown, Step;
    var (book', log') := Grown(keyOf, ops, book, log);
    forall o | o in book'.entries ensures Supplied(ops, log', o, book'.entries[o]) {
      EntrySupplied(keyOf, ops, book, log, o);
    }
    forall i | 0 <= i < |ops| && OriginAt(ops, log', i).Some? && NoReset(ops, i, |ops|)
      ensures OriginAt(ops, log', i).value in book'.entries
        && log'[i] == Some(book'.entries[OriginAt(ops, log', i).value])
    {
      AnswerEntered(keyOf, ops, book, log, i);
    }
  }

  lemma LastFields(keyOf: Word -> Content, ops: seq<Op>, book: Book, log: Log)
    requires Grows(keyOf, ops, book, log)
    ensures FieldsRight(keyOf, ops, Grown(keyOf, ops, book, log).1, |log|)
  {
    var n := |log|;
    var (book', log') := Grown(keyOf, ops, book, log);
    EarlierSame(keyOf, ops, log, log');
    var o := OriginAt(ops, log', n);
    if o.Some? && o.value in book.entries {
      var d := book.entries[o.value];
      assert Supplied(ops[..n], log, o.value, d);
      var i: nat :| SuppliedBy(ops[..n], log, o.value, d, i);
      assert FieldsRight(keyOf, ops[..n], log, i);
      if ops[n].Transition? {
        var p, q := ops[n].parent, ops[i].parent;
        assert log[p].value.id == log[q].value.id;
        assert p < q ==> SameWhen(ops[..n], log, p, q);
        assert q < p ==> SameWhen(ops[..n], log, q, p);
      }
    }
  }

  lemma LastSame(keyOf: Word -> Content, ops: seq<Op>, book: Book, log: Log)
    requires Grows(keyOf, ops, book, log)
    ensures forall i :: 0 <= i < |log| ==> SameWhen(ops, Grown(keyOf, ops, book, log).1, i, |log|)
  {
    var n := |log|;
    var (book', log') := Grown(keyOf, ops, book, log);
    EarlierSame(keyOf, ops, log, log');
    forall i | 0 <= i < n && Returned(log', i) && Returned(log', n) ensures SameWhen(ops, log', i, n) {
      assert OriginAt(ops[..n], log, i) == OriginAt(ops, log', i);
      var o := OriginAt(ops, log', n);
      if o.Some? && o.value in book.entries {
        var d := book.entries[o.value];
        assert Supplied(ops[..n], log, o.value, d);
        var k: nat :| SuppliedBy(ops[..n], log, o.value, d, k);
        assert i < k ==> SameWhen(ops[..n], log, i, k);
        assert k < i ==> SameWhen(ops[..n], log, k, i);
      } else {
        assert log'[i].value.id < book.next;
      }
    }
  }

  lemma LogKept(keyOf: Word -> Content, ops: seq<Op>, book: Book, log: Log)
    requires Grows(keyOf, ops, book, log)
    ensures var (book', log') := Grown(keyOf, ops, book, log); LogRight(keyOf, ops, book', log')
  {
    hide FieldsRight, SameWhen;
    var n := |log|;
    var (book', log') := Grown(keyOf, ops, book, log);
    EarlierSame(keyOf, ops, log, log');
    LastFields(keyOf, ops, book, log);
    LastSame(keyOf, ops, book, log);
    forall i | 0 <= i < |ops| ensures FieldsRight(keyOf, ops, log', i) {
      assert i < n ==> FieldsRight(keyOf, ops[..n], log, i);
    }
    forall i, j | 0 <= i < j < |ops| ensures SameWhen(ops, log', i, j) {
      assert j < n ==> SameWhen(ops[..n], log, i, j);
    }
    forall i | 0 <= i < |ops| && OriginAt(ops, log', i).Some? ensures log'[i].Some? {
      assert i < n ==> OriginAt(ops[..n], log, i) == OriginAt(ops, log', i);
    }
  }

  lemma {:induction false} RunRight(keyOf: Word -> Content, ops: seq<Op>)
    ensures var (book, log) := Run(keyOf, ops); BookRight(ops, book, log) && LogRight(keyOf, ops, book, log)
    decreases |ops|
  {
    if ops != [] {
      var init := ops[..|ops| - 1];
      RunRight(keyOf, init);
      var (book, log) := Run(keyOf, init);
      BookKept(keyOf, ops, book, log);
      LogKept(keyOf, ops, book, log);
    }
  }

  // Over any run of requests, transitions, foreign declarations and resets: two steps return the
  // same object exactly when they ask for the same keys, or the same new key of the same parent,
  // and no reset lies between them; and no two objects share an id.
  lemma SharedExactly(keyOf: Word -> Content, ops: seq<Op>, i: nat, j: nat)
    requires i < j < |ops|
    ensures SameWhen(ops, Run(keyOf, ops).1, i, j)
  {
    RunRight(keyOf, ops);
  }

  // The keys that a step's answer stands for, in order.
  function Listing(keyOf: Word -> Content, ops: seq<Op>, i: nat): Option<seq<Content>>
    requires i < |ops|
  {
    match ops[i]
    case Shape(keys) => Some(Contents(keyOf, keys))
    case Transition(p, key) =>
      if p >= i then None else
      (match Listing(keyOf, ops, p) case Some(cs) => Some(cs + [keyOf(key)]) case None => None)
    case _ => None
  }

  // Whatever cache answered, and however many transitions led there: a descriptor puts its i-th
  // key at offset i, and holds no other key, exactly when its keys are all different.
  lemma {:induction false} DenseExactly(keyOf: Word -> Content, ops: seq<Op>, i: nat)
    requires i < |ops| && Listing(keyOf, ops, i).Some?
    ensures var log, cs := Run(keyOf, ops).1, Listing(keyOf, ops, i).value;
      Returned(log, i) && (Lists(log[i].value.fields, cs) <==> AllDifferent(cs))
    ensures forall c :: c in Run(keyOf, ops).1[i].value.fields <==> c in Listing(keyOf, ops, i).value
  {
    RunRight(keyOf, ops);
    var log := Run(keyOf, ops).1;
    assert FieldsRight(keyOf, ops, log, i);
    match ops[i]
    case Shape(keys) =>
      assert OriginAt(ops, log, i).Some?;
      FieldsList(keyOf, keys);
    case Transition(p, key) =>
      DenseExactly(keyOf, ops, p);
      assert OriginAt(ops, log, i).Some?;
      ExtendedLists(log[p].value.fields, Listing(keyOf, ops, p).value, keyOf(key));
  }

  lemma ExtendedAppends(fields: Fields, c: Content)
    ensures var after := Extended(fields, c);
      && after.Keys == fields.Keys + {c}
      && after[c] == |fields|
      && (forall x :: x in fields && x != c ==> after[x] == fields[x])
      && (c !in fields ==> |after| == |fields| + 1)
  {
    var after := Extended(fields, c);
    assert after.Keys == fields.Keys + {c};
    if c !in fields {
      assert |after| == |after.Keys| == |fields.Keys + {c}| == |fields.Keys| + 1 == |fields| + 1;
    }
  }

  // A new key goes behind the old ones, and none of those moves; so it is whatever the parent is.
  lemma TransitionAppends(keyOf: Word -> Content, ops: seq<Op>, i: nat)
    requires i < |ops| && ops[i].Transition? && Returned(Run(keyOf, ops).1, i)
    ensures var log, p, c := Run(keyOf, ops).1, ops[i].parent, keyOf(ops[i].key);
      && p < i && Returned(log, p)
      && log[i].value.fields.Keys == log[p].value.fields.Keys + {c}
      && log[i].value.fields[c] == |log[p].value.fields|
      && (forall x :: x in log[p].value.fields && x != c ==> log[i].value.fields[x] == log[p].value.fields[x])
      && (c !in log[p].value.fields ==> |log[i].value.fields| == |log[p].value.fields| + 1)
  {
    RunRight(keyOf, ops);
    var log := Run(keyOf, ops).1;
    assert FieldsRight(keyOf, ops, log, i);
    hide Run, BookRight, LogRight;
    ExtendedAppends(log[ops[i].parent].value.fields, keyOf(ops[i].key));
  }

  // ---------------------------------------------------------------- the caches

  ghost predicate ShapesMatch(shapes: map<seq<Word>, (Desc, seq<nat>)>, entries: map<Origin, Desc>)
  {
    && (forall keys :: keys in shapes <==> FromKeys(keys) in entries)
    && (forall keys :: keys in shapes ==> shapes[keys] == (entries[FromKeys(keys)], Offsets(|keys|)))
  }

  ghost predicate TransitionsMatch(transitions: map<(nat, Word), Desc>, entries: map<Origin, Desc>)
  {
    && (forall p: nat, k: Word :: (p, k) in transitions <==> FromParent(p, k) in entries)
    && (forall p: nat, k: Word :: (p, k) in transitions ==> transitions[(p, k)] == entries[FromParent(p, k)])
  }

  ghost predicate FastMatch(shapes: map<seq<Word>, (Desc, seq<nat>)>, fast2: Option<(Word, Word, Desc)>,
      fast1: Option<(Word, Desc)>)
  {
    && (fast2.Some? ==>
      [fast2.value.0, fast2.value.1] in shapes && shapes[[fast2.value.0, fast2.value.1]].0 == fast2.value.2)
    && (fast1.Some? ==> [fast1.value.0] in shapes && shapes[[fast1.value.0]].0 == fast1.value.1)
  }

  lemma ShapeEntered(shapes: map<seq<Word>, (Desc, seq<nat>)>, transitions: map<(nat, Word), Desc>,
      entries: map<Origin, Desc>, fast2: Option<(Word, Word, Desc)>, fast1: Option<(Word, Desc)>, keys: seq<Word>,
      d: Desc)
    requires ShapesMatch(shapes, entries) && TransitionsMatch(transitions, entries) && FastMatch(shapes, fast2, fast1)
      && keys !in shapes
    ensures FromKeys(keys) !in entries
    ensures ShapesMatch(shapes[keys := (d, Offsets(|keys|))], entries[FromKeys(keys) := d])
    ensures TransitionsMatch(transitions, entries[FromKeys(keys) := d])
    ensures FastMatch(shapes[keys := (d, Offsets(|keys|))], fast2, fast1)
  {
    hide Offsets;
  }

  lemma TransitionEntered(shapes: map<seq<Word>, (Desc, seq<nat>)>, transitions: map<(nat, Word), Desc>,
      entries: map<Origin, Desc>, p: nat, k: Word, d: Desc)
    requires ShapesMatch(shapes, entries) && TransitionsMatch(transitions, entries)
    ensures ShapesMatch(shapes, entries[FromParent(p, k) := d])
    ensures TransitionsMatch(transitions[(p, k) := d], entries[FromParent(p, k) := d])
  {
  }

  lemma TransitionFound(transitions: map<(nat, Word), Desc>, entries: map<Origin, Desc>, p: nat, k: Word)
    requires TransitionsMatch(transitions, entries)
    ensures (p, k) in transitions <==> FromParent(p, k) in entries
    ensures (p, k) in transitions ==> transitions[(p, k)] == entries[FromParent(p, k)]
  {
  }

  class ShapeCaches {
    const keyOf: Word -> Content
    var fast2: Option<(Word, Word, Desc)>
    var fast1: Option<(Word, Desc)>
    var shapes: map<seq<Word>, (Desc, seq<nat>)>
    var transitions: map<(nat, Word), Desc>
    var nextId: nat
    ghost var book: Book

    // The general caches together are the book, and the fast ones say nothing else.
    ghost predicate Valid()
      reads this
    {
      && nextId == book.next
      && ShapesMatch(shapes, book.entries) && TransitionsMatch(transitions, book.entries)
      && FastMatch(shapes, fast2, fast1)
    }

    constructor (keyOf: Word -> Content)
      ensures Valid() && this.keyOf == keyOf && book == Book(map[], 0)
    {
      this.keyOf := keyOf;
      fast2, fast1, shapes, transitions, nextId, book := None, None, map[], map[], 0, Book(map[], 0);
    }

    // The answer of the fast caches, where they have one.
    function Fast(keys: seq<Word>): Option<Desc>
      reads this
    {
      if |keys| == 2 && fast2.Some? && fast2.value.0 == keys[0] && fast2.value.1 == keys[1] then Some(fast2.value.2)
      else if |keys| == 1 && fast1.Some? && fast1.value.0 == keys[0] then Some(fast1.value.1)
      else None
    }

    lemma FastIsBook(keys: seq<Word>)
      requires Valid() && Fast(keys).Some?
      ensures FromKeys(keys) in book.entries && book.entries[FromKeys(keys)] == Fast(keys).value
    {
      if |keys| == 2 {
        assert keys == [fast2.value.0, fast2.value.1];
      } else {
        assert keys == [fast1.value.0];
      }
    }

    method GetShape(keys: seq<Word>) returns (d: Desc, offsets: seq<nat>)
      requires Valid()
      modifies this
      ensures Valid() && offsets == Offsets(|keys|)
      ensures (book, d) == Ask(old(book), FromKeys(keys), FieldsOf(keyOf, keys))
    {
      var quick := Fast(keys);
      if quick.Some? {
        FastIsBook(keys);
        return quick.value, Offsets(|keys|);
      }
      if keys in shapes {
        d, offsets := shapes[keys].0, shapes[keys].1;
        Remember(keys, d);
        return;
      }
      d, offsets := MakeShape(keys);
    }

    // A descriptor for keys that no cache knows.
    method MakeShape(keys: seq<Word>) returns (d: Desc, offsets: seq<nat>)
      requires Valid() && keys !in shapes
      modifies this
      ensures Valid() && offsets == Offsets(|keys|)
      ensures (book, d) == Ask(old(book), FromKeys(keys), FieldsOf(keyOf, keys))
    {
      var fields := CollectFields(keys);
      offsets := Offsets(|keys|);
      d := Desc(nextId, fields);
      ShapeEntered(shapes, transitions, book.entries, fast2, fast1, keys, d);
      hide ShapesMatch, TransitionsMatch, FastMatch, FieldsOf, Offsets;
      nextId := nextId + 1;
      shapes := shapes[keys := (d, offsets)];
      book := Book(book.entries[FromKeys(keys) := d], book.next + 1);
      Remember(keys, d);
    }

    method CollectFields(keys: seq<Word>) returns (fields: Fields)
      ensures fields == FieldsOf(keyOf, keys)
    {
      fields := map[];
      assert keys[..0] == [];
      for i := 0 to |keys|
        invariant fields == FieldsOf(keyOf, keys[..i])
      {
        assert keys[..i + 1][..i] == keys[..i];
        fields := fields[keyOf(keys[i]) := i];
      }
      assert keys[..|keys|] == keys;
    }

    // The fast caches keep the last one-key and two-key answers.
    method Remember(keys: seq<Word>, d: Desc)
      requires Valid() && keys in shapes && shapes[keys].0 == d
      modifies this`fast1, this`fast2
      ensures Valid()
    {
      if |keys| == 2 {
        assert keys == [keys[0], keys[1]];
        fast2 := Some((keys[0], keys[1], d));
      } else if |keys| == 1 {
        assert keys == [keys[0]];
        fast1 := Some((keys[0], d));
      }
    }

    method GetShape2(k0: Word, k1: Word) returns (d: Desc, offsets: (nat, nat))
      requires Valid()
      modifies this
      ensures Valid() && offsets == (0, 1)
      ensures (book, d) == Ask(old(book), FromKeys([k0, k1]), FieldsOf(keyOf, [k0, k1]))
    {
      if fast2.Some? && fast2.value.0 == k0 && fast2.value.1 == k1 {
        return fast2.value.2, (0, 1);
      }
      var o;
      d, o := GetShape([k0, k1]);
      offsets := (o[0], o[1]);
    }

    method Transition(parent: Desc, key: Word) returns (d: Desc)
      requires Valid()
      modifies this
      ensures Valid()
      ensures (book, d) == Ask(old(book), FromParent(parent.id, key), Extended(parent.fields, keyOf(key)))
    {
      hide ShapesMatch, TransitionsMatch, FastMatch;
      TransitionFound(transitions, book.entries, parent.id, key);
      if (parent.id, key) in transitions {
        d := transitions[(parent.id, key)];
        return;
      }
      d := Desc(nextId, parent.fields[keyOf(key) := |parent.fields|]);
      nextId := nextId + 1;
      TransitionEntered(shapes, transitions, book.entries, parent.id, key, d);
      transitions := transitions[(parent.id, key) := d];
      book := Book(book.entries[FromParent(parent.id, key) := d], book.next + 1);
    }

    method Reset()
      requires Valid()
      modifies this
      ensures Valid() && book == old(book).(entries := map[])
    {
      fast2, fast1, shapes, transitions := None, None, map[], map[];
      book := book.(entries := map[]);
    }
  }
}
