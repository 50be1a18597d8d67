/**
 * The shapes of data that reach the search command's flattener and the
 * JSON-ready shapes it produces. Python's run-time probing (`isinstance` on
 * date/datetime and list, `hasattr(x, "__dict__")`) is replaced by a closed
 * datatype whose constructors are exactly the flattener's four branches.
 */
module Values {

  datatype Option<+T> = None | Some(value: T)

  /**
   * The exceptions of the search command that the model follows: the
   * flattener's own `RuntimeWarning("List in List")`, and the `TypeError`
   * that `json.dumps` raises on a value it cannot render (a date, a set, ...).
   */
  datatype Exception = ListInList | NotSerializable

  /** A computed value, or the exception raised while computing it. */
  datatype Result<+T> = Ok(value: T) | Raised(error: Exception)

  /** Completion of an operation that only updates state: it ran through, or it raised. */
  datatype Outcome = Pass | Fail(error: Exception)

  /**
   * A `date` or `datetime` instance. Its text form comes from an `isoformat`
   * function that every operation takes as a parameter and never inspects.
   */
  type Moment(==)

  /**
   * A value without `__dict__` that is neither a list nor a date: kept as it
   * is, and never looked inside. `None`, booleans, integers and strings have
   * constructors of their own; `Other` is every remaining such value (a
   * float, a tuple, a plain dict, a set, `bytes`, a `Decimal`, ...), with
   * `renderable` telling whether `json.dumps` accepts it: true for a float or
   * a tuple or dict of renderable contents, false for a set, `bytes`, a
   * `Decimal` or a tuple or dict holding a date or an object.
   */
  datatype Atom = Null | Bool(b: bool) | Int(i: int) | Text(s: string) | Other(renderable: bool)

  /** An attribute value as the Polarion client library hands it over. */
  datatype Value =
    | Scalar(atom: Atom)
    | Temporal(moment: Moment)
    | List(elems: seq<Value>)
    /** An object with `__dict__`: its attribute groups in `__dict__` order. */
    | Obj(groups: seq<Group>)

  /** One `__dict__` entry of an object: its name and the mapping it holds, in iteration order. */
  datatype Group = Group(name: string, attrs: seq<Attr>)

  /** One entry of a group's mapping. */
  datatype Attr = Attr(key: string, value: Value)

  /** What the flattener writes: everything `json.dumps` is later asked to render. */
  datatype Json =
    | JAtom(atom: Atom)
    /** A date left untouched, which happens only to a date that is an element of a list. */
    | JMoment(moment: Moment)
    | JList(items: seq<Json>)
    /** A Python dict: entries in insertion order, keys distinct. */
    | JDict(entries: seq<(string, Json)>)

  /**
   * A work item of a search result. `polarionItem` is the internal
   * `_polarion_item` object when the item has one; `attrs` is the item's own
   * `__dict__`; `rawValues` is what `vars(item).get("__values__")` returns,
   * which the default search mode passes through untouched.
   */
  datatype Workitem = Workitem(polarionItem: Option<seq<Group>>, attrs: seq<Group>, rawValues: Option<Json>)
}
