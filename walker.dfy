/**
 * What the flattener of the search command computes, as functions on values:
 * the entry `_parse_attributes_recursively` stores for one attribute value
 * (`Walk`), the dict `_handle_object_with_dict` builds for one object
 * (`Flatten`), and independent descriptions of when it raises and of which
 * key ends up holding which value.
 */
module Walker {
  import opened Values
  import opened OrderedDicts

  /**
   * The entry stored for `value`, in the branch order of the source: a date
   * becomes its `isoformat()` text, a list is rebuilt element by element, an
   * object becomes the dict of its attributes, anything else is kept.
   */
  function Walk(iso: Moment -> string, v: Value): Result<Json>
    decreases v, 0
  {
    match v
    case Temporal(t) => Ok(JAtom(Text(iso(t))))
    case List(es) =>
      (match WalkElems(iso, es)
       case Ok(js) => Ok(JList(js))
       case Raised(_) => Raised(ListInList))
    case Obj(gs) =>
      (match Flatten(iso, gs)
       case Ok(d) => Ok(JDict(d))
       case Raised(_) => Raised(ListInList))
    case Scalar(a) => Ok(JAtom(a))
  }

  /**
   * What one list element contributes: an object its dict, a list the
   * exception, anything else (dates included) the element itself.
   */
  function Element(iso: Moment -> string, e: Value): Result<Json>
    decreases e, 0
  {
    match e
    case Obj(gs) =>
      (match Flatten(iso, gs)
       case Ok(d) => Ok(JDict(d))
       case Raised(_) => Raised(ListInList))
    case List(_) => Raised(ListInList)
    case Scalar(a) => Ok(JAtom(a))
    case Temporal(t) => Ok(JMoment(t))
  }

  function WalkElems(iso: Moment -> string, es: seq<Value>): Result<seq<Json>>
    decreases es, 0
  {
    if es == [] then Ok([])
    else
      match Element(iso, es[0])
      case Raised(_) => Raised(ListInList)
      case Ok(j) =>
        (match WalkElems(iso, es[1..])
         case Raised(_) => Raised(ListInList)
         case Ok(js) => Ok([j] + js))
  }

  /** The dict built from the groups of an object, starting from the empty dict. */
  function Flatten(iso: Moment -> string, gs: seq<Group>): Result<Dict>
    decreases gs, 1
  {
    Merge(iso, [], gs)
  }

  /** Visits every group in order and every attribute inside it, ignoring group names. */
  function Merge(iso: Moment -> string, d: Dict, gs: seq<Group>): Result<Dict>
    decreases gs, 0
  {
    if gs == [] then Ok(d)
    else
      match MergeAttrs(iso, d, gs[0].attrs)
      case Raised(_) => Raised(ListInList)
      case Ok(d') => Merge(iso, d', gs[1..])
  }

  /** Stores the walked value of each attribute under its key, one after the other. */
  function MergeAttrs(iso: Moment -> string, d: Dict, attrs: seq<Attr>): Result<Dict>
    decreases attrs, 0
  {
    if attrs == [] then Ok(d)
    else
      match Walk(iso, attrs[0].value)
      case Raised(_) => Raised(ListInList)
      case Ok(j) => MergeAttrs(iso, Put(d, attrs[0].key, j), attrs[1..])
  }

  /** The groups a work item's dict is built from: `_polarion_item`'s when present, else its own. */
  function Attributes(w: Workitem): seq<Group>
  {
    if w.polarionItem.Some? then w.polarionItem.value else w.attrs
  }

  //////////////////////////////////////////////////////////////////////////////
  // When the flattener raises

  /** Somewhere the walk reaches, a list has a list as a direct element. */
  ghost predicate Unsupported(v: Value)
  {
    match v
    case List(es) => exists i :: 0 <= i < |es| && BadElement(es[i])
    case Obj(gs) => BadGroups(gs)
    case _ => false
  }

  ghost predicate BadElement(e: Value)
  {
    e.List? || (e.Obj? && BadGroups(e.groups))
  }

  ghost predicate BadGroups(gs: seq<Group>)
  {
    exists i :: 0 <= i < |gs| && BadAttrs(gs[i].attrs)
  }

  ghost predicate BadAttrs(attrs: seq<Attr>)
  {
    exists j :: 0 <= j < |attrs| && Unsupported(attrs[j].value)
  }

  /** The walk raises "List in List" exactly when the value is unsupported. */
  lemma {:induction false} RaisesIffUnsupported(iso: Moment -> string, v: Value)
    ensures Walk(iso, v).Raised? <==> Unsupported(v)
    decreases v
  {
    match v
    case List(es) => ElemsRaiseIffBad(iso, es);
    case Obj(gs) => MergeRaisesIffBad(iso, [], gs);
    case _ =>
  }

  lemma {:induction false} ElemsRaiseIffBad(iso: Moment -> string, es: seq<Value>)
    ensures WalkElems(iso, es).Raised? <==> exists i :: 0 <= i < |es| && BadElement(es[i])
    decreases es
  {
    if es != [] {
      var e := es[0];
      if e.Obj? {
        MergeRaisesIffBad(iso, [], e.groups);
      }
      assert Element(iso, e).Raised? <==> BadElement(e);
      ElemsRaiseIffBad(iso, es[1..]);
      assert forall i :: 0 < i < |es| ==> es[i] == es[1..][i - 1];
    }
  }

  lemma {:induction false} MergeRaisesIffBad(iso: Moment -> string, d: Dict, gs: seq<Group>)
    ensures Merge(iso, d, gs).Raised? <==> BadGroups(gs)
    decreases gs
  {
    if gs != [] {
      AttrsRaiseIffBad(iso, d, gs[0].attrs);
      match MergeAttrs(iso, d, gs[0].attrs)
      case Raised(_) =>
      case Ok(d') =>
        MergeRaisesIffBad(iso, d', gs[1..]);
        assert forall i :: 0 < i < |gs| ==> gs[i] == gs[1..][i - 1];
    }
  }

  lemma {:induction false} AttrsRaiseIffBad(iso: Moment -> string, d: Dict, attrs: seq<Attr>)
    ensures MergeAttrs(iso, d, attrs).Raised? <==> BadAttrs(attrs)
    decreases attrs
  {
    if attrs != [] {
      RaisesIffUnsupported(iso, attrs[0].value);
      match Walk(iso, attrs[0].value)
      case Raised(_) =>
      case Ok(j) =>
        AttrsRaiseIffBad(iso, Put(d, attrs[0].key, j), attrs[1..]);
        assert forall i :: 0 < i < |attrs| ==> attrs[i] == attrs[1..][i - 1];
    }
  }

  //////////////////////////////////////////////////////////////////////////////
  // Lists

  /**
   * A walked list has the length and order of the original: each element is
   * replaced by what `Element` makes of it, and the walk raises exactly when
   * some element does.
   */
  lemma {:induction false} WalkElemsPointwise(iso: Moment -> string, es: seq<Value>)
    ensures WalkElems(iso, es).Ok? <==> forall i :: 0 <= i < |es| ==> Element(iso, es[i]).Ok?
    ensures WalkElems(iso, es).Ok? ==>
              && |WalkElems(iso, es).value| == |es|
              && forall i :: 0 <= i < |es| ==> WalkElems(iso, es).value[i] == Element(iso, es[i]).value
  {
    if es != [] {
      WalkElemsPointwise(iso, es[1..]);
      assert forall i :: 0 < i < |es| ==> es[i] == es[1..][i - 1];
    }
  }

  /** A list with a list as a direct element raises, whatever else it holds. */
  lemma ListInListRaises(iso: Moment -> string, es: seq<Value>, i: nat)
    requires i < |es| && es[i].List?
    ensures Walk(iso, List(es)).Raised?
  {
    WalkElemsPointwise(iso, es);
  }

  //////////////////////////////////////////////////////////////////////////////
  // Keys and last-write-wins

  /** All attributes of all groups, in the order the nested loops visit them. */
  function AllAttrs(gs: seq<Group>): seq<Attr>
  {
    if gs == [] then [] else gs[0].attrs + AllAttrs(gs[1..])
  }

  lemma {:induction false} MergeAttrsConcat(iso: Moment -> string, d: Dict, a: seq<Attr>, b: seq<Attr>)
    ensures MergeAttrs(iso, d, a + b) ==
              match MergeAttrs(iso, d, a)
              case Raised(_) => Raised(ListInList)
              case Ok(d') => MergeAttrs(iso, d', b)
    decreases a
  {
    if a != [] {
      assert (a + b)[0] == a[0] && (a + b)[1..] == a[1..] + b;
      match Walk(iso, a[0].value)
      case Raised(_) =>
      case Ok(j) => MergeAttrsConcat(iso, Put(d, a[0].key, j), a[1..], b);
    } else {
      assert a + b == b;
    }
  }

  /** Group boundaries and names play no part: merging groups is merging all their attributes. */
  lemma {:induction false} MergeIsMergeAttrs(iso: Moment -> string, d: Dict, gs: seq<Group>)
    ensures Merge(iso, d, gs) == MergeAttrs(iso, d, AllAttrs(gs))
    decreases gs
  {
    if gs != [] {
      MergeAttrsConcat(iso, d, gs[0].attrs, AllAttrs(gs[1..]));
      match MergeAttrs(iso, d, gs[0].attrs)
      case Raised(_) =>
      case Ok(d') => MergeIsMergeAttrs(iso, d', gs[1..]);
    }
  }

  /** No attribute after position `i` has the key of the attribute at `i`. */
  ghost predicate LastOfKey(attrs: seq<Attr>, i: int)
    requires 0 <= i < |attrs|
  {
    forall j :: i < j < |attrs| ==> attrs[j].key != attrs[i].key
  }

  /** A key no attribute carries. */
  ghost predicate Absent(attrs: seq<Attr>, k: string)
  {
    forall i :: 0 <= i < |attrs| ==> attrs[i].key != k
  }

  /**
   * Storing attributes one after the other: the keys afterwards are the old
   * keys and the attributes' keys, and they stay distinct.
   */
  lemma {:induction false} MergeAttrsKeys(iso: Moment -> string, d: Dict, attrs: seq<Attr>)
    requires UniqueKeys(d)
    requires MergeAttrs(iso, d, attrs).Ok?
    ensures UniqueKeys(MergeAttrs(iso, d, attrs).value)
    ensures forall k :: k in Keys(MergeAttrs(iso, d, attrs).value) <==>
                          k in Keys(d) || exists i :: 0 <= i < |attrs| && attrs[i].key == k
    decreases attrs
  {
    if attrs != [] {
      var a := attrs[0];
      var rest := attrs[1..];
      var j := Walk(iso, a.value).value;
      var d' := Put(d, a.key, j);
      PutUnique(d, a.key, j);
      PutKeys(d, a.key, j);
      MergeAttrsKeys(iso, d', rest);
      var r := MergeAttrs(iso, d, attrs).value;
      assert r == MergeAttrs(iso, d', rest).value;
      forall k ensures k in Keys(r) <==> k in Keys(d) || exists i :: 0 <= i < |attrs| && attrs[i].key == k {
        if exists i :: 0 <= i < |rest| && rest[i].key == k {
          var i :| 0 <= i < |rest| && rest[i].key == k;
          assert attrs[i + 1].key == k;
        }
        if exists i :: 0 <= i < |attrs| && attrs[i].key == k {
          var i :| 0 <= i < |attrs| && attrs[i].key == k;
          if i > 0 { assert rest[i - 1].key == k; }
        }
      }
    }
  }

  /** Storing attributes one after the other leaves a key that none of them carries as it was. */
  lemma {:induction false} MergeAttrsUntouched(iso: Moment -> string, d: Dict, attrs: seq<Attr>, k: string)
    requires MergeAttrs(iso, d, attrs).Ok?
    requires Absent(attrs, k)
    ensures Get(MergeAttrs(iso, d, attrs).value, k) == Get(d, k)
    decreases attrs
  {
    if attrs != [] {
      var a := attrs[0];
      var j := Walk(iso, a.value).value;
      assert Absent(attrs[1..], k) by {
        forall m | 0 <= m < |attrs| - 1 ensures attrs[1..][m].key != k {
          assert attrs[1..][m] == attrs[m + 1];
        }
      }
      MergeAttrsUntouched(iso, Put(d, a.key, j), attrs[1..], k);
      PutGet(d, a.key, j, k);
    }
  }

  /**
   * Storing attributes one after the other: the attribute visited last with
   * a given key decides that key's value (last write wins).
   */
  lemma {:induction false} MergeAttrsLastWins(iso: Moment -> string, d: Dict, attrs: seq<Attr>, i: nat)
    requires MergeAttrs(iso, d, attrs).Ok?
    requires i < |attrs| && LastOfKey(attrs, i)
    ensures Walk(iso, attrs[i].value).Ok?
    ensures Get(MergeAttrs(iso, d, attrs).value, attrs[i].key) == Some(Walk(iso, attrs[i].value).value)
    decreases attrs
  {
    var a := attrs[0];
    var rest := attrs[1..];
    var j := Walk(iso, a.value).value;
    if i == 0 {
      assert Absent(rest, a.key) by {
        forall m | 0 <= m < |rest| ensures rest[m].key != a.key {
          assert attrs[m + 1] == rest[m];
        }
      }
      MergeAttrsUntouched(iso, Put(d, a.key, j), rest, a.key);
      PutGet(d, a.key, j, a.key);
    } else {
      assert attrs[i] == rest[i - 1];
      assert LastOfKey(rest, i - 1) by {
        forall m | i - 1 < m < |rest| ensures rest[m].key != rest[i - 1].key {
          assert rest[m] == attrs[m + 1];
        }
      }
      MergeAttrsLastWins(iso, Put(d, a.key, j), rest, i - 1);
    }
  }

  /** Every attribute of every group is among the attributes visited. */
  lemma {:induction false} AllAttrsCovers(gs: seq<Group>, g: nat, j: nat)
    requires g < |gs| && j < |gs[g].attrs|
    ensures gs[g].attrs[j] in AllAttrs(gs)
  {
    if g > 0 {
      AllAttrsCovers(gs[1..], g - 1, j);
      assert gs[1..][g - 1] == gs[g];
    }
  }

  /**
   * The dict `_handle_object_with_dict` returns: its keys are distinct and
   * are exactly the keys found inside the groups (a group's own name is not
   * a key unless some attribute carries it); every attribute's key is
   * there; for each key, the attribute visited last decides the value.
   */
  lemma HandleObjectKeys(iso: Moment -> string, gs: seq<Group>)
    requires Flatten(iso, gs).Ok?
    ensures var r := Flatten(iso, gs).value; var all := AllAttrs(gs);
      && UniqueKeys(r)
      && (forall k :: k in Keys(r) <==> exists i :: 0 <= i < |all| && all[i].key == k)
      && (forall i :: 0 <= i < |all| && LastOfKey(all, i) ==>
            Walk(iso, all[i].value).Ok? && Get(r, all[i].key) == Some(Walk(iso, all[i].value).value))
      && (forall g, j :: 0 <= g < |gs| && 0 <= j < |gs[g].attrs| ==> gs[g].attrs[j].key in Keys(r))
  {
    var all := AllAttrs(gs);
    forall g, j | 0 <= g < |gs| && 0 <= j < |gs[g].attrs|
      ensures exists i :: 0 <= i < |all| && all[i].key == gs[g].attrs[j].key
    {
      AllAttrsCovers(gs, g, j);
    }
    MergeIsMergeAttrs(iso, [], gs);
    MergeAttrsKeys(iso, [], all);
    forall i | 0 <= i < |all| && LastOfKey(all, i)
      ensures Walk(iso, all[i].value).Ok? && Get(Flatten(iso, gs).value, all[i].key) == Some(Walk(iso, all[i].value).value)
    {
      MergeAttrsLastWins(iso, [], all, i);
    }
  }

  /** A group name that no attribute uses as a key never becomes a key. */
  lemma GroupNameNotKey(iso: Moment -> string, gs: seq<Group>, name: string)
    requires Flatten(iso, gs).Ok?
    requires forall a :: a in AllAttrs(gs) ==> a.key != name
    ensures name !in Keys(Flatten(iso, gs).value)
  {
    HandleObjectKeys(iso, gs);
  }

  //////////////////////////////////////////////////////////////////////////////
  // What json.dumps can render

  /** `json.dumps` renders the value without raising: no date and no unrenderable atom is left anywhere in it. */
  predicate Serialisable(j: Json)
  {
    match j
    case JAtom(a) => !a.Other? || a.renderable
    case JMoment(_) => false
    case JList(items) => forall i :: 0 <= i < |items| ==> Serialisable(items[i])
    case JDict(es) => forall i :: 0 <= i < |es| ==> Serialisable(es[i].1)
  }

  /**
   * Somewhere the walk reaches there is an atom `json.dumps` rejects, or a
   * list with a date as a direct element (a date anywhere else becomes text).
   */
  ghost predicate Unrenderable(v: Value)
    decreases v, 0
  {
    match v
    case Scalar(a) => !Serialisable(JAtom(a))
    case Temporal(_) => false
    case List(es) => exists i :: 0 <= i < |es| && UnrenderableElement(es[i])
    case Obj(gs) => UnrenderableGroups(gs)
  }

  ghost predicate UnrenderableElement(e: Value)
    decreases e, 1
  {
    e.Temporal? || Unrenderable(e)
  }

  ghost predicate UnrenderableGroups(gs: seq<Group>)
    decreases gs
  {
    exists i :: 0 <= i < |gs| && UnrenderableAttrs(gs[i].attrs)
  }

  ghost predicate UnrenderableAttrs(attrs: seq<Attr>)
    decreases attrs
  {
    exists j :: 0 <= j < |attrs| && Unrenderable(attrs[j].value)
  }

  /** Storing a renderable value in a renderable dict keeps it renderable. */
  lemma PutSerialisable(d: Dict, k: string, v: Json)
    requires Serialisable(JDict(d)) && Serialisable(v)
    ensures Serialisable(JDict(Put(d, k, v)))
  {
    var r := Put(d, k, v);
    forall i | 0 <= i < |r| ensures Serialisable(r[i].1) {
      if k !in Keys(d) && i == |d| {
      } else if k in Keys(d) && i == IndexOf(d, k) {
      } else {
        assert r[i] == d[i];
      }
    }
  }

  /**
   * Only a date that is an element of a list survives the walk unconverted,
   * and atoms are copied as they are: a walked value with neither anywhere
   * can be rendered.
   */
  lemma {:induction false} WalkSerialisable(iso: Moment -> string, v: Value)
    requires Walk(iso, v).Ok? && !Unrenderable(v)
    ensures Serialisable(Walk(iso, v).value)
    decreases v
  {
    match v
    case List(es) => ElemsSerialisable(iso, es);
    case Obj(gs) => MergeSerialisable(iso, [], gs);
    case _ =>
  }

  lemma {:induction false} ElemsSerialisable(iso: Moment -> string, es: seq<Value>)
    requires WalkElems(iso, es).Ok? && forall i :: 0 <= i < |es| ==> !UnrenderableElement(es[i])
    ensures forall i :: 0 <= i < |WalkElems(iso, es).value| ==> Serialisable(WalkElems(iso, es).value[i])
    decreases es
  {
    WalkElemsPointwise(iso, es);
    forall i | 0 <= i < |es| ensures Serialisable(Element(iso, es[i]).value) {
      assert !UnrenderableElement(es[i]) && !Unrenderable(es[i]);
      if es[i].Obj? {
        MergeSerialisable(iso, [], es[i].groups);
      }
    }
  }

  lemma {:induction false} MergeSerialisable(iso: Moment -> string, d: Dict, gs: seq<Group>)
    requires Merge(iso, d, gs).Ok? && Serialisable(JDict(d)) && !UnrenderableGroups(gs)
    ensures Serialisable(JDict(Merge(iso, d, gs).value))
    decreases gs
  {
    if gs != [] {
      AttrsSerialisable(iso, d, gs[0].attrs);
      assert forall i :: 0 < i < |gs| ==> gs[i] == gs[1..][i - 1];
      MergeSerialisable(iso, MergeAttrs(iso, d, gs[0].attrs).value, gs[1..]);
    }
  }

  lemma {:induction false} AttrsSerialisable(iso: Moment -> string, d: Dict, attrs: seq<Attr>)
    requires MergeAttrs(iso, d, attrs).Ok? && Serialisable(JDict(d)) && !UnrenderableAttrs(attrs)
    ensures Serialisable(JDict(MergeAttrs(iso, d, attrs).value))
    decreases attrs
  {
    if attrs != [] {
      var j := Walk(iso, attrs[0].value).value;
      WalkSerialisable(iso, attrs[0].value);
      PutSerialisable(d, attrs[0].key, j);
      assert forall i :: 0 < i < |attrs| ==> attrs[i] == attrs[1..][i - 1];
      AttrsSerialisable(iso, Put(d, attrs[0].key, j), attrs[1..]);
    }
  }

  /** A date as a direct element of a list is copied unconverted, so the walked list cannot be rendered. */
  lemma ListedDateNotSerialisable(iso: Moment -> string, es: seq<Value>, i: nat)
    requires i < |es| && es[i].Temporal? && Walk(iso, List(es)).Ok?
    ensures !Serialisable(Walk(iso, List(es)).value)
  {
    WalkElemsPointwise(iso, es);
    assert Walk(iso, List(es)).value.items[i] == JMoment(es[i].moment);
  }
}
