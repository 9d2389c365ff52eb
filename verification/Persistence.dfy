/** The state record of one Grain: the ETag store, and the binder through which an
    activation reads and rewrites it.

    A stored record is modelled by the document it encodes, a map from state names
    to values; encoding may fail for some values. */
module Persistence {
  import opened Basics

  type Document<V> = map<string, V>

  /** A record that does not exist has ETag zero and an empty document. */
  datatype Record<V> = Record(doc: Document<V>, etag: nat)

  function Restrict<V>(doc: Document<V>, names: set<string>): Document<V> {
    map name | name in doc && name in names :: doc[name]
  }

  lemma RestrictGrows<V>(doc: Document<V>, names: set<string>, name: string)
    ensures Restrict(doc, names + {name}) ==
            if name in doc then Restrict(doc, names)[name := doc[name]] else Restrict(doc, names)
  {
  }

  lemma RestrictAll<V>(doc: Document<V>, names: set<string>)
    requires doc.Keys <= names
    ensures Restrict(doc, names) == doc
  {
  }

  /** The document after one named state was set, or cleared. */
  function Changed<V>(doc: Document<V>, name: string, value: Option<V>): Document<V> {
    match value case None => doc - {name} case Some(v) => doc[name := v]
  }

  /** Name by name: the changed state is there exactly when it was given a value, the others are as before. */
  lemma ChangedIs<V>(doc: Document<V>, name: string, value: Option<V>, other: string)
    ensures var d := Changed(doc, name, value);
      if other == name then (other in d <==> value.Some?) && (other in d ==> d[other] == value.value)
      else (other in d <==> other in doc) && (other in d ==> d[other] == doc[other])
  {
  }

  /** What an unreliable store may do to a write besides performing it. */
  datatype Fault = NoFault | FailBefore | FailAfter | CancelBefore | CancelAfter

  datatype ReadFault = ReadFine | ReadCancels | ReadBreaks
  datatype ReadReply<V> = Found(record: Record<V>) | ReadCancelled | ReadFailed

  datatype WriteReply = Written(etag: nat) | Conflict | Cancelled | Failed

  class RecordStore<V> {
    var records: map<string, Record<V>>

    constructor ()
      ensures records == map[]
    {
      records := map[];
    }

    ghost function Current(id: string): Record<V>
      reads this
    {
      if id in records then records[id] else Record(map[], 0)
    }

    method Read(id: string, fault: ReadFault) returns (reply: ReadReply<V>)
      ensures reply == match fault case ReadFine => Found(Current(id)) case ReadCancels => ReadCancelled case ReadBreaks => ReadFailed
    {
      if fault == ReadCancels { return ReadCancelled; }
      if fault == ReadBreaks { return ReadFailed; }
      if id !in records {
        return Found(Record(map[], 0));
      }
      return Found(records[id]);
    }

    /** Atomic compare-and-swap; a fault may suppress it, or hide that it happened. */
    method Write(id: string, doc: Document<V>, expected: nat, fault: Fault) returns (reply: WriteReply)
      modifies this
      ensures reply == Written(expected + 1) <==> fault == NoFault && old(Current(id)).etag == expected
      ensures reply == Conflict <==> fault != CancelBefore && fault != FailBefore && old(Current(id)).etag != expected
      ensures reply == Cancelled <==> fault == CancelBefore || (fault == CancelAfter && old(Current(id)).etag == expected)
      ensures reply == Failed <==> fault == FailBefore || (fault == FailAfter && old(Current(id)).etag == expected)
      ensures Current(id) == if fault != CancelBefore && fault != FailBefore && old(Current(id)).etag == expected
                             then Record(doc, expected + 1) else old(Current(id))
      ensures reply == Outcome(old(Current(id)).etag, expected, fault)
      ensures forall other :: other != id ==> Current(other) == old(Current(other))
    {
      if fault == CancelBefore { return Cancelled; }
      if fault == FailBefore { return Failed; }
      var current := if id in records then records[id].etag else 0;
      if current != expected {
        return Conflict;
      }
      records := records[id := Record(doc, current + 1)];
      if fault == FailAfter { return Failed; }
      if fault == CancelAfter { return Cancelled; }
      return Written(current + 1);
    }
  }

  predicate Applies(current: nat, expected: nat, fault: Fault) {
    fault != CancelBefore && fault != FailBefore && current == expected
  }

  function Outcome(current: nat, expected: nat, fault: Fault): WriteReply {
    match fault
    case CancelBefore => Cancelled
    case FailBefore => Failed
    case NoFault => if current == expected then Written(expected + 1) else Conflict
    case FailAfter => if current == expected then Failed else Conflict
    case CancelAfter => if current == expected then Cancelled else Conflict
  }

  datatype LoadReply = Loaded | LoadCancelled | LoadBroken | Undecodable

  /** A cell while the states `rest` are still to be loaded. */
  function LoadedCell<V>(doc: Document<V>, rest: set<string>, name: string): Option<V> {
    if name !in rest && name in doc then Some(doc[name]) else None
  }

  /** All registered states of the document can be decoded. */
  predicate Decodes<V>(doc: Document<V>, names: set<string>, decodable: V -> bool) {
    forall name :: name in names && name in doc ==> decodable(doc[name])
  }

  datatype PersistReply = Saved | EncodeFailed | GaveUp | Conflicted | Broken

  /** How a binder reports the outcome of its write. */
  function Reported(reply: WriteReply): PersistReply {
    match reply
    case Written(_) => Saved
    case Cancelled => GaveUp
    case Conflict => Conflicted
    case Failed => Broken
  }

  /** The values present, by name. */
  function CellsOf<V>(states: map<string, Option<V>>): Document<V> {
    map name | name in states && states[name].Some? :: states[name].value
  }

  /** The cells of `names` once all but `rest` were read from the document. */
  function Filled<V>(names: set<string>, doc: Document<V>, rest: set<string>): map<string, Option<V>> {
    map name | name in names :: LoadedCell(doc, rest, name)
  }

  lemma FilledMore<V>(names: set<string>, doc: Document<V>, rest: set<string>, name: string)
    requires name in rest && rest <= names
    ensures Filled(names, doc, rest - {name}) ==
            if name in doc then Filled(names, doc, rest)[name := Some(doc[name])] else Filled(names, doc, rest)
  {
  }

  lemma FilledAll<V>(names: set<string>, doc: Document<V>)
    ensures CellsOf(Filled(names, doc, {})) == Restrict(doc, names)
  {
  }

  lemma NothingFilled<V>(states: map<string, Option<V>>, doc: Document<V>)
    requires CellsOf(states) == map[]
    ensures Filled(states.Keys, doc, states.Keys) == states
  {
    forall name | name in states ensures states[name] == None {
      assert name !in CellsOf(states);
    }
  }

  lemma DecodesMore<V>(names: set<string>, doc: Document<V>, rest: set<string>, name: string, decodable: V -> bool)
    requires name in rest && rest <= names && Decodes(doc, names - rest, decodable)
    ensures name in doc && !decodable(doc[name]) ==> !Decodes(doc, names, decodable)
    ensures name !in doc || decodable(doc[name]) ==> Decodes(doc, names - (rest - {name}), decodable)
  {
  }

  /** Every present cell of `names`, `changed` aside, can be encoded. */
  predicate Encodes<V>(states: map<string, Option<V>>, names: set<string>, changed: string, encodable: V -> bool) {
    forall name :: name in names && name in states && name != changed && states[name].Some? ==> encodable(states[name].value)
  }

  lemma EncodesMore<V>(states: map<string, Option<V>>, seen: set<string>, changed: string, encodable: V -> bool, name: string)
    requires Encodes(states, seen, changed, encodable) && name in states
    ensures Encodes(states, seen + {name}, changed, encodable) <==>
      name == changed || states[name].None? || encodable(states[name].value)
  {
  }

  /** Some cell other than `changed` cannot be encoded. */
  predicate Fails<V>(states: map<string, Option<V>>, changed: string, encodable: V -> bool) {
    exists name :: name in states && name != changed && states[name].Some? && !encodable(states[name].value)
  }

  lemma FailsIff<V>(states: map<string, Option<V>>, seen: set<string>, changed: string, encodable: V -> bool)
    requires seen <= states.Keys
    ensures !Encodes(states, seen, changed, encodable) ==> Fails(states, changed, encodable)
    ensures Encodes(states, states.Keys, changed, encodable) ==> !Fails(states, changed, encodable)
  {
  }

  lemma NamesToWrite<V>(states: map<string, Option<V>>, changed: string, value: Option<V>)
    requires changed in states
    ensures Changed(CellsOf(states), changed, value).Keys <= states.Keys
  {
  }

  /** What the document to write holds under one name. */
  function CellToWrite<V>(states: map<string, Option<V>>, changed: string, value: Option<V>, name: string): Option<V>
    requires name in states
  {
    if name == changed then value else states[name]
  }

  /** The document to write, name by name. */
  lemma DocumentIs<V>(states: map<string, Option<V>>, changed: string, value: Option<V>)
    requires changed in states
    ensures var doc := Changed(CellsOf(states), changed, value);
      && (changed in doc <==> value.Some?) && (value.Some? ==> doc[changed] == value.value)
      && forall name :: name != changed ==>
        && (name in doc <==> name in states && states[name].Some?)
        && (name in doc ==> doc[name] == states[name].value)
  {
  }

  lemma WrittenCell<V>(states: map<string, Option<V>>, changed: string, value: Option<V>, seen: set<string>, name: string)
    requires name in states && name !in seen
    ensures var goal, cell := Changed(CellsOf(states), changed, value), CellToWrite(states, changed, value, name);
      Restrict(goal, seen + {name}) == if cell.Some? then Restrict(goal, seen)[name := cell.value] else Restrict(goal, seen)
  {
    RestrictGrows(Changed(CellsOf(states), changed, value), seen, name);
  }

  /** One activation's copy of the record. A `None` cell is registered but absent. */
  class Binder<V> {
    const identity: string
    var etag: nat
    var states: map<string, Option<V>>
    var discard: bool

    constructor (identity: string, names: set<string>)
      ensures this.identity == identity && etag == 0 && !discard
      ensures states.Keys == names && Cells() == map[]
    {
      this.identity := identity;
      etag, discard := 0, false;
      states := map name | name in names :: None;
    }

    /** The values present, by name. */
    ghost function Cells(): Document<V>
      reads this
    {
      CellsOf(states)
    }

    /** After loading, the cells are exactly the record, restricted to the registered names;
        a value that cannot be decoded, or a failed read, leaves the ETag alone. */
    method Load(store: RecordStore<V>, fault: ReadFault, decodable: V -> bool) returns (reply: LoadReply)
      requires Cells() == map[]
      modifies this
      ensures states.Keys == old(states.Keys) && discard == old(discard)
      ensures reply == LoadCancelled <==> fault == ReadCancels
      ensures reply == LoadBroken <==> fault == ReadBreaks
      ensures reply == Undecodable <==>
        && fault == ReadFine
        && exists name :: name in states && name in store.Current(identity).doc && !decodable(store.Current(identity).doc[name])
      ensures reply == Loaded ==> etag == store.Current(identity).etag
      ensures reply == Loaded ==> forall name :: name in states ==>
        var doc := store.Current(identity).doc; states[name] == if name in doc then Some(doc[name]) else None
      ensures reply == Loaded ==> Cells() == Restrict(store.Current(identity).doc, states.Keys)
      ensures reply != Loaded ==> etag == old(etag)
    {
      var read := store.Read(identity, fault);
      if read.ReadCancelled? { return LoadCancelled; }
      if read.ReadFailed? { return LoadBroken; }
      var ok := Decode(read.record.doc, decodable);
      if !ok { return Undecodable; }
      etag := read.record.etag;
      return Loaded;
    }

    /** Fills the cells from a document, until one of its values cannot be decoded. */
    method Decode(doc: Document<V>, decodable: V -> bool) returns (ok: bool)
      requires Cells() == map[]
      modifies this`states
      ensures states.Keys == old(states.Keys)
      ensures ok <==> forall name :: name in states && name in doc ==> decodable(doc[name])
      ensures ok ==> forall name :: name in states ==> states[name] == if name in doc then Some(doc[name]) else None
      ensures ok ==> Cells() == Restrict(doc, states.Keys)
    {
      ghost var names := states.Keys;
      NothingFilled(states, doc);
      var rest := states.Keys;
      while rest != {}
        invariant rest <= names && states == Filled(names, doc, rest)
        invariant Decodes(doc, names - rest, decodable)
        decreases |rest|
      {
        var name :| name in rest;
        FilledMore(names, doc, rest, name);
        DecodesMore(names, doc, rest, name, decodable);
        rest := rest - {name};
        if name !in doc {
          continue;
        }
        if !decodable(doc[name]) {
          return false;
        }
        states := states[name := Some(doc[name])];
      }
      assert names - rest == names;
      FilledAll(names, doc);
      return true;
    }

    /** The document to write, or none when a cell cannot be encoded. */
    method BuildDocument(changed: string, value: Option<V>, encodable: V -> bool) returns (result: Option<Document<V>>)
      requires changed in states
      ensures result.None? <==> Fails(states, changed, encodable)
      ensures result.Some? ==>
        (changed in result.value <==> value.Some?) && (value.Some? ==> result.value[changed] == value.value)
      ensures result.Some? ==> forall name :: name != changed ==>
        && (name in result.value <==> name in states && states[name].Some?)
        && (name in result.value ==> result.value[name] == states[name].value)
      ensures result.Some? ==> result.value == Changed(Cells(), changed, value)
    {
      result := Gather(changed, value, encodable);
      DocumentIs(states, changed, value);
    }

    method Gather(changed: string, value: Option<V>, encodable: V -> bool) returns (result: Option<Document<V>>)
      requires changed in states
      ensures result.None? <==> Fails(states, changed, encodable)
      ensures result.Some? ==> result.value == Changed(Cells(), changed, value)
    {
      var document: Document<V> := map[];
      var rest := states.Keys;
      ghost var goal, seen := Changed(Cells(), changed, value), {};
      while rest != {}
        invariant seen !! rest && seen + rest == states.Keys
        invariant document == Restrict(goal, seen)
        invariant Encodes(states, seen, changed, encodable)
        decreases |rest|
      {
        var name :| name in rest;
        WrittenCell(states, changed, value, seen, name);
        EncodesMore(states, seen, changed, encodable, name);
        FailsIff(states, seen + {name}, changed, encodable);
        rest, seen := rest - {name}, seen + {name};
        if name == changed {
          if value.Some? {
            document := document[name := value.value];
          }
        } else if states[name].Some? {
          if !encodable(states[name].value) {
            return None;
          }
          document := document[name := states[name].value];
        }
      }
      NamesToWrite(states, changed, value);
      FailsIff(states, seen, changed, encodable);
      RestrictAll(goal, seen);
      return Some(document);
    }

    /** The complete record is rewritten: every present cell, with `changed` replaced. */
    method Persist(store: RecordStore<V>, changed: string, value: Option<V>, encodable: V -> bool, fault: Fault)
      returns (reply: PersistReply)
      requires changed in states && (value.Some? ==> encodable(value.value))
      modifies this`etag, this`discard, store
      ensures reply == EncodeFailed <==> Fails(states, changed, encodable)
      ensures reply == EncodeFailed ==> store.Current(identity) == old(store.Current(identity))
      ensures reply != EncodeFailed ==>
        && (reply == Saved <==> fault == NoFault && old(store.Current(identity)).etag == old(etag))
        && (reply == Conflicted <==>
              fault != CancelBefore && fault != FailBefore && old(store.Current(identity)).etag != old(etag))
        && (reply == GaveUp <==>
              fault == CancelBefore || (fault == CancelAfter && old(store.Current(identity)).etag == old(etag)))
      ensures reply != EncodeFailed ==>
        && reply == Reported(Outcome(old(store.Current(identity)).etag, old(etag), fault))
        && store.Current(identity) ==
           if Applies(old(store.Current(identity)).etag, old(etag), fault)
           then Record(Changed(Cells(), changed, value), old(etag) + 1) else old(store.Current(identity))
      ensures etag == if reply == Saved then old(etag) + 1 else old(etag)
      ensures discard == (old(discard) || reply == Conflicted || reply == Broken)
    {
      var document := BuildDocument(changed, value, encodable);
      if document.None? {
        return EncodeFailed;
      }
      var written := store.Write(identity, document.value, etag, fault);
      match written {
        case Written(e) => etag := e; return Saved;
        case Cancelled => return GaveUp;
        case Conflict => discard := true; return Conflicted;
        case Failed => discard := true; return Broken;
      }
    }

    /** The in-memory value follows the store only when the write was confirmed. */
    method Set(store: RecordStore<V>, name: string, value: V, encodable: V -> bool, fault: Fault)
      returns (reply: PersistReply)
      requires name in states
      modifies this, store
      ensures states.Keys == old(states.Keys)
      ensures reply == Saved ==> states == old(states)[name := Some(value)]
      ensures reply == Saved ==> store.Current(identity).etag == old(etag) + 1 == old(store.Current(identity)).etag + 1
      ensures reply == Saved ==> var doc := store.Current(identity).doc;
        && name in doc && doc[name] == value
        && forall other :: other != name ==>
          && (other in doc <==> other in old(states) && old(states)[other].Some?)
          && (other in doc ==> doc[other] == old(states)[other].value)
      ensures reply == Saved ==> Cells() == Changed(old(Cells()), name, Some(value))
      ensures reply != Saved ==> states == old(states)
      ensures etag == if reply == Saved then old(etag) + 1 else old(etag)
      ensures discard == (old(discard) || reply == Conflicted || reply == Broken)
      ensures reply == EncodeFailed ==> store.Current(identity) == old(store.Current(identity))
      ensures reply != EncodeFailed ==>
        && reply == Reported(Outcome(old(store.Current(identity)).etag, old(etag), fault))
        && store.Current(identity) ==
           if Applies(old(store.Current(identity)).etag, old(etag), fault)
           then Record(Changed(old(Cells()), name, Some(value)), old(etag) + 1) else old(store.Current(identity))
      ensures !encodable(value) ==> reply == EncodeFailed
    {
      if !encodable(value) {
        return EncodeFailed;
      }
      reply := Persist(store, name, Some(value), encodable, fault);
      if reply == Saved {
        states := states[name := Some(value)];
      }
    }

    method Clear(store: RecordStore<V>, name: string, encodable: V -> bool, fault: Fault)
      returns (reply: PersistReply)
      requires name in states
      modifies this, store
      ensures states.Keys == old(states.Keys)
      ensures reply == Saved ==> states == old(states)[name := None] && name !in Cells()
      ensures reply == Saved ==> store.Current(identity).etag == old(etag) + 1 == old(store.Current(identity)).etag + 1
      ensures reply == Saved ==> var doc := store.Current(identity).doc;
        && name !in doc
        && forall other :: other != name ==>
          && (other in doc <==> other in old(states) && old(states)[other].Some?)
          && (other in doc ==> doc[other] == old(states)[other].value)
      ensures reply == Saved ==> Cells() == Changed(old(Cells()), name, None)
      ensures reply != Saved ==> states == old(states)
      ensures etag == if reply == Saved then old(etag) + 1 else old(etag)
      ensures discard == (old(discard) || reply == Conflicted || reply == Broken)
      ensures reply == EncodeFailed ==> store.Current(identity) == old(store.Current(identity))
      ensures reply != EncodeFailed ==>
        && reply == Reported(Outcome(old(store.Current(identity)).etag, old(etag), fault))
        && store.Current(identity) ==
           if Applies(old(store.Current(identity)).etag, old(etag), fault)
           then Record(Changed(old(Cells()), name, None), old(etag) + 1) else old(store.Current(identity))
    {
      reply := Persist(store, name, None, encodable, fault);
      if reply == Saved {
        states := states[name := None];
      }
    }
  }
}
