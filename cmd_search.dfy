/**
 * The search command: the in-place flattener (`_parse_attributes_recursively`,
 * `_handle_object_with_dict`, `_parse_nested_search_results`) and the status,
 * path and result-count logic of `_execute`. Each method is proved against the
 * functions of module Walker.
 */
module CmdSearch {
  import opened Values
  import opened OrderedDicts
  import opened Walker

  /**
   * `_parse_attributes_recursively(output_dict, value, key)`: stores what
   * `value` flattens to under `key` and touches no other entry, or raises
   * "List in List" before storing anything.
   */
  method ParseAttributesRecursively(iso: Moment -> string, outputDict: PyDict, value: Value, key: string)
    returns (outcome: Outcome)
    requires outputDict.Valid()
    modifies outputDict
    decreases value, 2
    ensures outputDict.Valid()
    ensures outcome.Pass? <==> Walk(iso, value).Ok?
    ensures outcome.Pass? ==> outputDict.entries == Put(old(outputDict.entries), key, Walk(iso, value).value)
    ensures outcome.Fail? ==>
              && outcome.error == ListInList && Walk(iso, value) == Raised(ListInList)
              && outputDict.entries == old(outputDict.entries)
    ensures value.Temporal? ==> outputDict.entries == Put(old(outputDict.entries), key, JAtom(Text(iso(value.moment))))
    ensures value.Scalar? ==> outputDict.entries == Put(old(outputDict.entries), key, JAtom(value.atom))
  {
    var attributeValue: Json;
    match value {
      case Temporal(t) =>
        attributeValue := JAtom(Text(iso(t)));
      case List(elems) =>
        var sublist: seq<Json> := [];
        var i := 0;
        while i < |elems|
          invariant 0 <= i <= |elems|
          invariant |sublist| == i
          invariant forall k :: 0 <= k < i ==> Element(iso, elems[k]) == Ok(sublist[k])
          invariant outputDict.entries == old(outputDict.entries)
        {
          var element := elems[i];
          if element.Obj? {
            var parsed := HandleObjectWithDict(iso, element.groups);
            if parsed.Raised? {
              WalkElemsPointwise(iso, elems);
              return Fail(ListInList);
            }
            sublist := sublist + [JDict(parsed.value)];
          } else if element.List? {
            WalkElemsPointwise(iso, elems);
            return Fail(ListInList);
          } else {
            sublist := sublist + [if element.Scalar? then JAtom(element.atom) else JMoment(element.moment)];
          }
          i := i + 1;
        }
        WalkElemsPointwise(iso, elems);
        assert WalkElems(iso, elems).value == sublist;
        attributeValue := JList(sublist);
      case Obj(groups) =>
        var parsed := HandleObjectWithDict(iso, groups);
        if parsed.Raised? {
          return Fail(ListInList);
        }
        attributeValue := JDict(parsed.value);
      case Scalar(a) =>
        attributeValue := JAtom(a);
    }
    outputDict.Set(key, attributeValue);
    outcome := Pass;
  }

  /**
   * The nested loops shared by `_handle_object_with_dict` and
   * `_parse_nested_search_results`: every attribute of every group, in
   * order, goes through `_parse_attributes_recursively` into `outputDict`.
   * When it raises, the entries written so far stay behind; every caller
   * drops the dict then.
   */
  method ParseGroups(iso: Moment -> string, outputDict: PyDict, groups: seq<Group>) returns (outcome: Outcome)
    requires outputDict.Valid()
    modifies outputDict
    decreases groups, 0
    ensures outputDict.Valid()
    ensures outcome.Pass? <==> Merge(iso, old(outputDict.entries), groups).Ok?
    ensures outcome.Pass? ==> outputDict.entries == Merge(iso, old(outputDict.entries), groups).value
    ensures outcome.Fail? ==> outcome.error == ListInList && Merge(iso, old(outputDict.entries), groups) == Raised(ListInList)
  {
    var i := 0;
    while i < |groups|
      invariant 0 <= i <= |groups|
      invariant outputDict.Valid()
      invariant Merge(iso, old(outputDict.entries), groups) == Merge(iso, outputDict.entries, groups[i..])
    {
      var attrs := groups[i].attrs;
      ghost var before := outputDict.entries;
      assert groups[i..][0] == groups[i] && groups[i..][1..] == groups[i + 1..];
      var j := 0;
      while j < |attrs|
        invariant 0 <= j <= |attrs|
        invariant outputDict.Valid()
        invariant MergeAttrs(iso, before, attrs) == MergeAttrs(iso, outputDict.entries, attrs[j..])
      {
        assert attrs[j..][0] == attrs[j] && attrs[j..][1..] == attrs[j + 1..];
        var st := ParseAttributesRecursively(iso, outputDict, attrs[j].value, attrs[j].key);
        if st.Fail? {
          return st;
        }
        j := j + 1;
      }
      i := i + 1;
    }
    outcome := Pass;
  }

  /** `_handle_object_with_dict(obj)`: a fresh dict holding the object's flattened attributes. */
  method HandleObjectWithDict(iso: Moment -> string, groups: seq<Group>) returns (parsed: Result<Dict>)
    decreases groups, 1
    ensures parsed == Flatten(iso, groups)
    ensures parsed.Ok? ==> UniqueKeys(parsed.value)
  {
    var parsedDict := new PyDict();
    var st := ParseGroups(iso, parsedDict, groups);
    if st.Fail? {
      return Raised(st.error);
    }
    parsed := Ok(parsedDict.entries);
  }

  /**
   * `_parse_nested_search_results(search_result)`: one fresh dict per work
   * item, in input order, built from `_polarion_item` when the item has one.
   */
  method ParseNestedSearchResults(iso: Moment -> string, searchResult: seq<Workitem>) returns (r: Result<seq<Dict>>)
    ensures r.Ok? <==> forall i :: 0 <= i < |searchResult| ==> Flatten(iso, Attributes(searchResult[i])).Ok?
    ensures r.Ok? ==>
              && |r.value| == |searchResult|
              && forall i :: 0 <= i < |searchResult| ==> r.value[i] == Flatten(iso, Attributes(searchResult[i])).value
    ensures r.Raised? ==> r.error == ListInList
  {
    var outputList: seq<Dict> := [];
    var i := 0;
    while i < |searchResult|
      invariant 0 <= i <= |searchResult|
      invariant |outputList| == i
      invariant forall k :: 0 <= k < i ==> Flatten(iso, Attributes(searchResult[k])) == Ok(outputList[k])
    {
      var workitem := searchResult[i];
      var workitemDict := new PyDict();
      var allItems := if workitem.polarionItem.Some? then workitem.polarionItem.value else workitem.attrs;
      var st := ParseGroups(iso, workitemDict, allItems);
      if st.Fail? {
        return Raised(st.error);
      }
      outputList := outputList + [workitemDict.entries];
      i := i + 1;
    }
    r := Ok(outputList);
  }

  //////////////////////////////////////////////////////////////////////////////
  // _execute

  /** The statuses `_execute` returns. */
  datatype Ret = OK | ErrorInvalidArguments | ErrorSearchFailed

  /** The parsed command line of `search`. */
  datatype Args = Args(project: string, query: string, output: Option<string>, full: bool, field: Option<seq<string>>)

  /**
   * A Polarion project: its two search calls, each giving the work items a
   * query (and, for `searchWorkitem`, a field list) matches.
   */
  datatype Project = Project(
    searchWorkitemFullItem: string -> seq<Workitem>,
    searchWorkitem: (string, Option<seq<string>>) -> seq<Workitem>)

  /** A Polarion client: `getProject` gives the project, or `None` where the call raises. */
  datatype Client = Client(getProject: string -> Option<Project>)

  /** The file `_execute` writes: its path and the dict it serialises. */
  datatype FileWrite = FileWrite(path: string, document: Dict)

  /**
   * How `_execute` ends: it returns a status (having written a file or not),
   * or an exception escapes it. `truncated` is the path of the file that
   * `open(file_path, 'w')` had already created or emptied when the exception
   * was raised, if any.
   */
  datatype ExecResult =
    | Returned(ret: Ret, file: Option<FileWrite>)
    | Propagated(error: Exception, truncated: Option<string>)

  const OUTPUT_FILE_NAME := "search_results.json"

  predicate Accepted(args: Args, client: Option<Client>)
  {
    args.project != "" && args.query != "" && client.Some?
  }

  /** Whether the mode flattens work items (`--full`, or `--field`) or passes `__values__` through. */
  predicate Flattening(args: Args)
  {
    args.full || args.field.Some?
  }

  /** The work items the chosen mode asks for: `--full` before `--field` before the default. */
  function Selected(args: Args, p: Project): seq<Workitem>
  {
    if args.full then p.searchWorkitemFullItem(args.query)
    else if args.field.Some? then p.searchWorkitem(args.query, args.field)
    else p.searchWorkitem(args.query, None)
  }

  /** What the default mode stores for an item: `vars(item).get("__values__")`. */
  function PassThrough(w: Workitem): Json
  {
    if w.rawValues.Some? then w.rawValues.value else JAtom(Null)
  }

  function Document(project: string, query: string, n: int, results: seq<Json>): Dict
  {
    [("project", JAtom(Text(project))), ("query", JAtom(Text(query))),
     ("number_of_results", JAtom(Int(n))), ("results", JList(results))]
  }

  function AsJson(ds: seq<Dict>): seq<Json>
  {
    seq(|ds|, i requires 0 <= i < |ds| => JDict(ds[i]))
  }

  /**
   * `rs` holds, one per item and in item order, what the mode makes of each
   * work item: its flattened dict, or its `__values__` passed through.
   */
  ghost predicate ResultsFor(iso: Moment -> string, args: Args, items: seq<Workitem>, rs: seq<Json>)
  {
    && |rs| == |items|
    && forall i :: 0 <= i < |items| ==>
         if Flattening(args) then
           Flatten(iso, Attributes(items[i])).Ok? && rs[i] == JDict(Flatten(iso, Attributes(items[i])).value)
         else rs[i] == PassThrough(items[i])
  }

  /**
   * The document written for `items`: the four keys in order, the project and
   * query as given, the results of the mode, and a count equal to the number
   * of results.
   */
  ghost predicate Reports(iso: Moment -> string, args: Args, items: seq<Workitem>, doc: Dict)
  {
    && |doc| == 4
    && doc[3].1.JList?
    && doc == Document(args.project, args.query, |doc[3].1.items|, doc[3].1.items)
    && ResultsFor(iso, args, items, doc[3].1.items)
  }

  /** What the mode makes of one work item that does not make the flattener raise. */
  ghost function ItemResult(iso: Moment -> string, args: Args, w: Workitem): Json
  {
    if !Flattening(args) then PassThrough(w)
    else if Flatten(iso, Attributes(w)).Ok? then JDict(Flatten(iso, Attributes(w)).value)
    else JAtom(Null)
  }

  /** Every item's result can be serialised by `json.dumps`: none holds a date object or an unrenderable atom. */
  ghost predicate Dumpable(iso: Moment -> string, args: Args, items: seq<Workitem>)
  {
    forall i :: 0 <= i < |items| ==> Serialisable(ItemResult(iso, args, items[i]))
  }

  /** Some work item of `items` makes the flattener raise. */
  ghost predicate SomeRaises(iso: Moment -> string, items: seq<Workitem>)
  {
    exists i :: 0 <= i < |items| && Flatten(iso, Attributes(items[i])).Raised?
  }

  /** The document's four keys are distinct. */
  lemma DocumentKeys(project: string, query: string, n: int, rs: seq<Json>)
    ensures UniqueKeys(Document(project, query, n, rs))
  {
  }

  /** Storing `results` replaces that entry in place; the other three entries and the key order stay. */
  lemma DocumentPutResults(project: string, query: string, n: int, rs: seq<Json>, rs': seq<Json>)
    ensures Put(Document(project, query, n, rs), "results", JList(rs')) == Document(project, query, n, rs')
  {
    var d := Document(project, query, n, rs);
    assert "project"[0] != "results"[0] && "query"[0] != "results"[0] && "number_of_results"[0] != "results"[0];
    PutAt(d, "results", JList(rs'), 3);
    assert d[4..] == [];
  }

  /** Storing `number_of_results` replaces that entry in place; the other three entries and the key order stay. */
  lemma DocumentPutCount(project: string, query: string, n: int, rs: seq<Json>, n': int)
    ensures Put(Document(project, query, n, rs), "number_of_results", JAtom(Int(n'))) == Document(project, query, n', rs)
  {
    var d := Document(project, query, n, rs);
    assert "project"[0] != "number_of_results"[0] && "query"[0] != "number_of_results"[0];
    PutAt(d, "number_of_results", JAtom(Int(n')), 2);
  }

  /** `output_dict["results"]` reads the stored results list. */
  lemma DocumentGetResults(project: string, query: string, n: int, rs: seq<Json>)
    ensures Get(Document(project, query, n, rs), "results") == Some(JList(rs))
  {
    var d := Document(project, query, n, rs);
    assert "project"[0] != "results"[0] && "query"[0] != "results"[0] && "number_of_results"[0] != "results"[0];
    assert Get(d, "results") == Get(d[1..], "results") == Get(d[2..], "results") == Get(d[3..], "results");
  }

  /** Storing the key of entry `i`, the first with that key, replaces that entry where it stands. */
  lemma PutAt(d: Dict, k: string, v: Json, i: nat)
    requires i < |d| && d[i].0 == k && forall j :: 0 <= j < i ==> d[j].0 != k
    ensures Put(d, k, v) == d[..i] + [(k, v)] + d[i + 1..]
  {
    assert Keys(d)[i] == k;
    assert IndexOf(d, k) == i;
    var r := Put(d, k, v);
    var e := d[..i] + [(k, v)] + d[i + 1..];
    assert |r| == |e|;
    assert forall j :: 0 <= j < |e| ==> r[j] == e[j];
  }

  /** The document serialises exactly when every one of its results does. */
  lemma DocumentSerialisable(project: string, query: string, n: int, rs: seq<Json>)
    ensures Serialisable(JDict(Document(project, query, n, rs))) <==>
            forall i :: 0 <= i < |rs| ==> Serialisable(rs[i])
  {
    var d := Document(project, query, n, rs);
    assert d[3].1 == JList(rs);
    if forall i :: 0 <= i < |rs| ==> Serialisable(rs[i]) {
      assert Serialisable(d[3].1);
      assert forall i :: 0 <= i < |d| ==> Serialisable(d[i].1);
    }
  }

  /** A reported document serialises exactly when every item's result does. */
  lemma ReportsSerialisable(iso: Moment -> string, args: Args, items: seq<Workitem>, doc: Dict)
    requires Reports(iso, args, items, doc)
    ensures Serialisable(JDict(doc)) <==> Dumpable(iso, args, items)
  {
    var rs := doc[3].1.items;
    DocumentSerialisable(args.project, args.query, |rs|, rs);
    assert forall i :: 0 <= i < |items| ==> rs[i] == ItemResult(iso, args, items[i]);
  }

  /**
   * In a flattening mode, no item raises and none holds, anywhere the walk
   * reaches, a date as a list element or an atom `json.dumps` rejects: then
   * every item's result can be serialised.
   */
  lemma RenderableItemsDumpable(iso: Moment -> string, args: Args, items: seq<Workitem>)
    requires Flattening(args) && !SomeRaises(iso, items)
    requires forall i :: 0 <= i < |items| ==> !UnrenderableGroups(Attributes(items[i]))
    ensures Dumpable(iso, args, items)
  {
    forall i | 0 <= i < |items| ensures Serialisable(ItemResult(iso, args, items[i])) {
      assert Flatten(iso, Attributes(items[i])).Ok?;
      MergeSerialisable(iso, [], Attributes(items[i]));
    }
  }

  /**
   * The mode branch of `_execute`: asks the project for the selected mode's
   * work items and stores what the mode makes of them under `results`, or
   * raises when a flattening mode meets a list in a list.
   */
  method StoreResults(iso: Moment -> string, args: Args, project: Project, outputDict: PyDict) returns (outcome: Outcome)
    requires outputDict.Valid()
    requires outputDict.entries == Document(args.project, args.query, 0, [])
    modifies outputDict
    ensures outputDict.Valid()
    ensures outcome.Fail? <==> Flattening(args) && SomeRaises(iso, Selected(args, project))
    ensures outcome.Fail? ==> outcome.error == ListInList
    ensures outcome.Pass? ==>
              && |outputDict.entries| == 4
              && outputDict.entries[3].1.JList?
              && outputDict.entries == Document(args.project, args.query, 0, outputDict.entries[3].1.items)
              && ResultsFor(iso, args, Selected(args, project), outputDict.entries[3].1.items)
  {
    // The list stored under "results": assigned whole by the flattening
    // modes, appended to item by item by the default mode.
    var results: seq<Json> := [];
    if args.full || args.field.Some? {
      var searchResult: seq<Workitem>;
      if args.full {
        searchResult := project.searchWorkitemFullItem(args.query);
      } else {
        searchResult := project.searchWorkitem(args.query, args.field);
      }
      var parsed := ParseNestedSearchResults(iso, searchResult);
      if parsed.Raised? {
        return Fail(parsed.error);
      }
      results := AsJson(parsed.value);
    } else {
      var searchResult := project.searchWorkitem(args.query, None);
      for i := 0 to |searchResult|
        invariant |results| == i
        invariant forall k :: 0 <= k < i ==> results[k] == PassThrough(searchResult[k])
      {
        var itemDict := PassThrough(searchResult[i]);
        results := results + [itemDict];
      }
    }
    assert ResultsFor(iso, args, Selected(args, project), results);
    DocumentPutResults(args.project, args.query, 0, [], results);
    outputDict.Set("results", JList(results));
    outcome := Pass;
  }

  /**
   * `_execute(args, polarion_client)`: refuses an empty project or query or
   * a missing client, reports a project that cannot be fetched, and otherwise
   * writes the document of the selected mode's results to
   * `<folder>/<project>_search_results.json`, unless the flattener raises
   * or the document holds a value `json.dumps` cannot serialise.
   */
  method Execute(iso: Moment -> string, args: Args, client: Option<Client>) returns (res: ExecResult)
    ensures !Accepted(args, client) ==> res == Returned(ErrorInvalidArguments, None)
    ensures Accepted(args, client) && client.value.getProject(args.project).None? ==>
              res == Returned(ErrorSearchFailed, None)
    ensures Accepted(args, client) && client.value.getProject(args.project).Some? ==>
              var items := Selected(args, client.value.getProject(args.project).value);
              var path := (if args.output.Some? then args.output.value else ".") + "/" + args.project + "_search_results.json";
              if Flattening(args) && SomeRaises(iso, items) then res == Propagated(ListInList, None)
              else if !Dumpable(iso, args, items) then res == Propagated(NotSerializable, Some(path))
              else
                && res.Returned? && res.ret == OK && res.file.Some?
                && res.file.value.path == path
                && Reports(iso, args, items, res.file.value.document)
    ensures res.Returned? && res.ret == OK ==> res.file.Some?
    ensures res.Returned? && res.ret != OK ==> res.file.None?
  {
    res := Returned(ErrorInvalidArguments, None);
    if args.project != "" && args.query != "" && client.Some? {
      var outputFolder := ".";
      DocumentKeys(args.project, args.query, 0, []);
      var outputDict := new PyDict.Of(Document(args.project, args.query, 0, []));
      if args.output.Some? {
        outputFolder := args.output.value;
      }
      var filePath := outputFolder + "/" + args.project + "_" + OUTPUT_FILE_NAME;
      assert filePath == outputFolder + "/" + args.project + "_search_results.json" by {
        var prefix := outputFolder + "/" + args.project;
        assert "_" + OUTPUT_FILE_NAME == "_search_results.json";
        assert prefix + "_" + OUTPUT_FILE_NAME == prefix + ("_" + OUTPUT_FILE_NAME);
      }

      var project := client.value.getProject(args.project);
      if project.None? {
        res := Returned(ErrorSearchFailed, None);
      } else {
        var st := StoreResults(iso, args, project.value, outputDict);
        if st.Fail? {
          return Propagated(st.error, None);
        }
        ghost var results := outputDict.entries[3].1.items;
        DocumentGetResults(args.project, args.query, 0, results);
        DocumentPutCount(args.project, args.query, 0, results, |results|);
        var stored := Get(outputDict.entries, "results");
        outputDict.Set("number_of_results", JAtom(Int(|stored.value.items|)));
        // `open(file_path, 'w')` creates or empties the file before
        // `json.dumps` meets a value it cannot render and raises.
        ReportsSerialisable(iso, args, Selected(args, project.value), outputDict.entries);
        if !Serialisable(JDict(outputDict.entries)) {
          return Propagated(NotSerializable, Some(filePath));
        }
        res := Returned(OK, Some(FileWrite(filePath, outputDict.entries)));
      }
    }
  }
}
