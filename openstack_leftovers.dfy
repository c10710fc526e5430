/** `openstack.Leftovers`: the OpenStack front end that lists the configured
    resource kinds and hands what they list to the asynchronous deleter.
    Name filters are not supported on this provider and are refused. */
module OpenStackLeftovers {
  import opened Common
  import opened Sequences
  import opened App

  const ListFilterWarning: string := "Warning: Filters are not supported for OpenStack."
  const DeleteFilterError: string := "--filter is not supported for OpenStack."
  const DeleteByTypeFilterLine: string := "Error: Filters are not supported for OpenStack. Aborting deletion!"
  const DeleteByTypeFilterError: string := "cannot delete openstack resources using a filter"

  /** A `listTyper`: one resource kind of the account, with its `Type()` and
      what its `List()` does: the calls it makes on the shared logger while
      listing (the confirmation prompts, for instance), the resources it
      returns, and its error or none. */
  datatype ListTyper = ListTyper(kind: string, listLog: seq<LogEvent>, listed: seq<Deletable>, listErr: Option<string>)

  /** The provider side of `List()` calls: answers each as the resource kind
      says, passes on to the shared logger what the kind logs while listing,
      and records which kinds were asked, in the order asked. */
  class ListingBackend {
    var calls: seq<ListTyper>

    constructor ()
      ensures calls == []
    {
      calls := [];
    }

    method List(r: ListTyper, logger: Logger) returns (list: seq<Deletable>, err: Option<string>)
      modifies this, logger
      ensures list == r.listed && err == r.listErr
      ensures calls == old(calls) + [r]
      ensures logger.events == old(logger.events) + r.listLog
    {
      calls := calls + [r];
      logger.events := logger.events + r.listLog;
      list, err := r.listed, r.listErr;
    }
  }

  /** What a resource kind's `List()` returns, error or not. */
  function ListedOf(r: ListTyper): seq<Deletable>
  {
    r.listed
  }

  /** The resource kind's `Type()` is `t`. */
  function HasType(t: string): ListTyper -> bool
  {
    (r: ListTyper) => r.kind == t
  }

  /** The configured kinds whose `Type()` is `rType`, in configuration order:
      the kinds `DeleteByType` lists. */
  function OfType(rs: seq<ListTyper>, rType: string): seq<ListTyper>
    decreases |rs|
  {
    if rs == [] then []
    else OfType(rs[..|rs| - 1], rType) + (if rs[|rs| - 1].kind == rType then [rs[|rs| - 1]] else [])
  }

  /** The resource kind's `List()` returns an error. */
  predicate ListFailed(r: ListTyper)
  {
    r.listErr.Some?
  }

  /** The message of a failed listing; empty when the listing succeeded. */
  function ErrorText(r: ListTyper): string
  {
    match r.listErr
    case Some(message) => message
    case None => ""
  }

  /** The yellow line that reports a failed listing. */
  function FailureLine(r: ListTyper): LogEvent
  {
    Line(Yellow, ErrorText(r))
  }

  /** The yellow line logged when listing `r` fails; nothing otherwise. */
  function ErrorLine(r: ListTyper): seq<LogEvent>
  {
    if ListFailed(r) then [FailureLine(r)] else []
  }

  /** Everything the shared logger receives while `r` is listed: what the
      kind's own `List()` logs, then the line reporting its error, if any. */
  function KindLog(r: ListTyper): seq<LogEvent>
  {
    r.listLog + ErrorLine(r)
  }

  /** Everything the shared logger receives while listing `rs`, kind after
      kind. */
  function ListingLog(rs: seq<ListTyper>): seq<LogEvent>
  {
    Flatten(Map(KindLog, rs))
  }

  lemma ListingLogSnoc(rs: seq<ListTyper>, r: ListTyper)
    ensures ListingLog(rs + [r]) == ListingLog(rs) + KindLog(r)
  {
    MapSnoc(KindLog, rs, r);
    FlattenSnoc(Map(KindLog, rs), KindLog(r));
  }

  /** The lines logged for listing errors, in resource order. */
  function ErrorLines(rs: seq<ListTyper>): seq<LogEvent>
    decreases |rs|
  {
    if rs == [] then [] else ErrorLines(rs[..|rs| - 1]) + ErrorLine(rs[|rs| - 1])
  }

  lemma ErrorLinesSnoc(rs: seq<ListTyper>, r: ListTyper)
    ensures ErrorLines(rs + [r]) == ErrorLines(rs) + ErrorLine(r)
  {
    assert (rs + [r])[..|rs|] == rs;
  }

  /** The line `List` prints for a listed resource: `[type: name]`. */
  function ListingLine(d: Deletable): LogEvent
  {
    Line(Plain, "[" + d.kind + ": " + d.name + "]")
  }

  /** The line `Types` prints for a resource kind. */
  function TypeLine(r: ListTyper): LogEvent
  {
    Line(Plain, r.kind)
  }

  class Leftovers {
    const logger: Logger
    const asyncDeleter: AsyncDeleter
    const resources: seq<ListTyper>
    const backend: ListingBackend

    constructor (logger: Logger, asyncDeleter: AsyncDeleter, resources: seq<ListTyper>, backend: ListingBackend)
      ensures this.logger == logger && this.asyncDeleter == asyncDeleter
      ensures this.resources == resources && this.backend == backend
    {
      this.logger := logger;
      this.asyncDeleter := asyncDeleter;
      this.resources := resources;
      this.backend := backend;
    }

    /** One step of the listing loops: list `r` and log its error, if any,
        in yellow, keeping whatever it listed either way. */
    method ListLogged(r: ListTyper) returns (list: seq<Deletable>)
      modifies logger, backend
      ensures list == r.listed
      ensures backend.calls == old(backend.calls) + [r]
      ensures logger.events == old(logger.events) + KindLog(r)
    {
      var err;
      list, err := backend.List(r, logger);
      if err.Some? {
        logger.Println(Yellow, err.value);
      }
    }

    /** Lists every resource kind in order, logging but otherwise ignoring a
        listing error, and prints one line per listed resource; a non-empty
        filter is refused with a warning before anything is listed. */
    method List(filter: string)
      modifies logger, backend
      ensures filter != "" ==>
                && logger.events == old(logger.events) + [ConfirmationOff, Line(Yellow, ListFilterWarning)]
                && backend.calls == old(backend.calls)
      ensures filter == "" ==>
                && logger.events == old(logger.events) + [ConfirmationOff] + ListingLog(resources)
                                    + Map(ListingLine, Flatten(Map(ListedOf, resources)))
                && backend.calls == old(backend.calls) + resources
    {
      logger.NoConfirm();

      if filter != "" {
        logger.Println(Yellow, ListFilterWarning);
        return;
      }

      var deletables := CollectListed();
      PrintListing(deletables);
    }

    /** The listing loop of `List`: lists every kind in order, logging
        listing errors, and returns everything listed, laid end to end. */
    method CollectListed() returns (deletables: seq<Deletable>)
      modifies logger, backend
      ensures deletables == Flatten(Map(ListedOf, resources))
      ensures logger.events == old(logger.events) + ListingLog(resources)
      ensures backend.calls == old(backend.calls) + resources
    {
      ghost var logged, called := logger.events, backend.calls;
      deletables := [];
      for i := 0 to |resources|
        invariant deletables == Flatten(Map(ListedOf, resources[..i]))
        invariant logger.events == logged + ListingLog(resources[..i])
        invariant backend.calls == called + resources[..i]
      {
        deletables := CollectNext(i, deletables, logged, called);
      }
      assert resources[..|resources|] == resources;
    }

    /** One pass of the `List` loop: lists the `i`-th kind and appends what
        it listed to what the earlier kinds listed. */
    method CollectNext(i: nat, deletables: seq<Deletable>, ghost logged: seq<LogEvent>, ghost called: seq<ListTyper>)
      returns (extended: seq<Deletable>)
      requires i < |resources|
      requires deletables == Flatten(Map(ListedOf, resources[..i]))
      requires logger.events == logged + ListingLog(resources[..i])
      requires backend.calls == called + resources[..i]
      modifies logger, backend
      ensures extended == Flatten(Map(ListedOf, resources[..i + 1]))
      ensures logger.events == logged + ListingLog(resources[..i + 1])
      ensures backend.calls == called + resources[..i + 1]
    {
      ListedStep(resources, i);
      var list := ListLogged(resources[i]);
      extended := deletables + list;
    }

    /** The second half of `List`: one `[type: name]` line per resource. */
    method PrintListing(deletables: seq<Deletable>)
      modifies logger
      ensures logger.events == old(logger.events) + Map(ListingLine, deletables)
    {
      for k := 0 to |deletables|
        invariant logger.events == old(logger.events) + Map(ListingLine, deletables[..k])
      {
        var d := deletables[k];
        assert deletables[..k + 1] == deletables[..k] + [d];
        MapSnoc(ListingLine, deletables[..k], d);
        logger.Println(Plain, "[" + d.kind + ": " + d.name + "]");
      }
      assert deletables[..|deletables|] == deletables;
    }

    /** The type is ignored: this is `List` itself. */
    method ListByType(filter: string, rType: string)
      modifies logger, backend
      ensures filter != "" ==>
                && logger.events == old(logger.events) + [ConfirmationOff, Line(Yellow, ListFilterWarning)]
                && backend.calls == old(backend.calls)
      ensures filter == "" ==>
                && logger.events == old(logger.events) + [ConfirmationOff] + ListingLog(resources)
                                    + Map(ListingLine, Flatten(Map(ListedOf, resources)))
                && backend.calls == old(backend.calls) + resources
    {
      List(filter);
    }

    /** Prints the type of every resource kind once, in order. */
    method Types()
      modifies logger
      ensures logger.events == old(logger.events) + [ConfirmationOff] + Map(TypeLine, resources)
    {
      logger.NoConfirm();
      for i := 0 to |resources|
        invariant logger.events == old(logger.events) + [ConfirmationOff] + Map(TypeLine, resources[..i])
      {
        assert resources[..i + 1] == resources[..i] + [resources[i]];
        MapSnoc(TypeLine, resources[..i], resources[i]);
        logger.Println(Plain, resources[i].kind);
      }
      assert resources[..|resources|] == resources;
    }

    /** Refuses a non-empty filter without touching anything. Otherwise lists
        every resource kind in order, logging a listing error and still
        keeping that kind's group, and returns what the deleter returns for
        the groups, one per resource kind in resource order. */
    method Delete(filter: string) returns (err: Option<string>)
      modifies logger, asyncDeleter, backend
      ensures filter != "" ==>
                && err == Some(DeleteFilterError)
                && logger.events == old(logger.events)
                && asyncDeleter.received == old(asyncDeleter.received)
                && backend.calls == old(backend.calls)
      ensures filter == "" ==>
                var groups := Map(ListedOf, resources);
                && asyncDeleter.received == old(asyncDeleter.received) + [groups]
                && err == asyncDeleter.outcome(groups)
                && logger.events == old(logger.events) + ListingLog(resources)
                && backend.calls == old(backend.calls) + resources
    {
      if filter != "" {
        return Some(DeleteFilterError);
      }

      var deletables: seq<seq<Deletable>> := [];
      for i := 0 to |resources|
        invariant deletables == Map(ListedOf, resources[..i])
        invariant logger.events == old(logger.events) + ListingLog(resources[..i])
        invariant asyncDeleter.received == old(asyncDeleter.received)
        invariant backend.calls == old(backend.calls) + resources[..i]
      {
        var list := ListLogged(resources[i]);
        assert resources[..i + 1] == resources[..i] + [resources[i]];
        MapSnoc(ListedOf, resources[..i], resources[i]);
        ListingLogSnoc(resources[..i], resources[i]);
        deletables := deletables + [list];
      }
      assert resources[..|resources|] == resources;

      err := asyncDeleter.Run(deletables);
    }

    /** The listing loop of `DeleteByType`: lists the kinds of type `rType`
        in order, logging listing errors, and returns their groups. */
    method CollectOfType(rType: string) returns (deletables: seq<seq<Deletable>>)
      modifies logger, backend
      ensures deletables == Map(ListedOf, OfType(resources, rType))
      ensures logger.events == old(logger.events) + ListingLog(OfType(resources, rType))
      ensures backend.calls == old(backend.calls) + OfType(resources, rType)
    {
      deletables := [];
      for i := 0 to |resources|
        invariant deletables == Map(ListedOf, OfType(resources[..i], rType))
        invariant logger.events == old(logger.events) + ListingLog(OfType(resources[..i], rType))
        invariant backend.calls == old(backend.calls) + OfType(resources[..i], rType)
      {
        ghost var chosen := OfType(resources[..i], rType);
        TypedStep(resources, i, rType);
        if resources[i].kind == rType {
          assert OfType(resources[..i + 1], rType) == chosen + [resources[i]];
          var list := ListLogged(resources[i]);
          MapSnoc(ListedOf, chosen, resources[i]);
          ListingLogSnoc(chosen, resources[i]);
          deletables := deletables + [list];
        } else {
          assert OfType(resources[..i + 1], rType) == chosen;
        }
      }
      assert resources[..|resources|] == resources;
    }

    /** Refuses a non-empty filter with a red line, listing nothing. Otherwise
        lists exactly the resource kinds of type `rType`, in order, and returns
        what the deleter returns for their groups. */
    method DeleteByType(filter: string, rType: string) returns (err: Option<string>)
      modifies logger, asyncDeleter, backend
      ensures filter != "" ==>
                && err == Some(DeleteByTypeFilterError)
                && logger.events == old(logger.events) + [Line(Red, DeleteByTypeFilterLine)]
                && asyncDeleter.received == old(asyncDeleter.received)
                && backend.calls == old(backend.calls)
      ensures filter == "" ==>
                var chosen := OfType(resources, rType);
                var groups := Map(ListedOf, chosen);
                && asyncDeleter.received == old(asyncDeleter.received) + [groups]
                && err == asyncDeleter.outcome(groups)
                && logger.events == old(logger.events) + ListingLog(chosen)
                && backend.calls == old(backend.calls) + chosen
    {
      if filter != "" {
        logger.Println(Red, DeleteByTypeFilterLine);
        return Some(DeleteByTypeFilterError);
      }

      var deletables := CollectOfType(rType);
      err := asyncDeleter.Run(deletables);
    }
  }

  /** One step of the listing loop of `List`. */
  lemma ListedStep(rs: seq<ListTyper>, i: nat)
    requires i < |rs|
    ensures rs[..i + 1] == rs[..i] + [rs[i]]
    ensures Flatten(Map(ListedOf, rs[..i + 1])) == Flatten(Map(ListedOf, rs[..i])) + rs[i].listed
    ensures ListingLog(rs[..i + 1]) == ListingLog(rs[..i]) + KindLog(rs[i])
  {
    assert rs[..i + 1] == rs[..i] + [rs[i]];
    MapSnoc(ListedOf, rs[..i], rs[i]);
    FlattenSnoc(Map(ListedOf, rs[..i]), rs[i].listed);
    ListingLogSnoc(rs[..i], rs[i]);
  }

  /** One step of the `DeleteByType` loop. */
  lemma TypedStep(rs: seq<ListTyper>, i: nat, rType: string)
    requires i < |rs|
    ensures OfType(rs[..i + 1], rType)
         == OfType(rs[..i], rType) + (if rs[i].kind == rType then [rs[i]] else [])
  {
    assert rs[..i + 1][..i] == rs[..i];
  }

  /** `OfType` is the generic order-preserving filter by type. */
  lemma {:induction false} OfTypeIsFilter(rs: seq<ListTyper>, rType: string)
    ensures OfType(rs, rType) == Filter(HasType(rType), rs)
    decreases |rs|
  {
    if rs != [] {
      OfTypeIsFilter(rs[..|rs| - 1], rType);
    }
  }

  /** The kinds `DeleteByType` lists are exactly the configured kinds of the
      requested type, in configuration order. */
  lemma TypedSelection(rs: seq<ListTyper>, rType: string, r: ListTyper)
    ensures r in OfType(rs, rType) <==> r in rs && r.kind == rType
    ensures IsSubsequence(OfType(rs, rType), rs)
  {
    OfTypeIsFilter(rs, rType);
    FilterMembership(HasType(rType), rs, r);
    FilterIsSubsequence(HasType(rType), rs);
  }

  /** `DeleteByType` hands the deleter one group per configured kind of the
      requested type, in configuration order, and no group for any other
      kind: two configured kinds of the same type give two groups. */
  lemma OneGroupPerTypedKind(rs: seq<ListTyper>, rType: string)
    ensures exists idx: seq<nat> ::
              && Embeds(idx, OfType(rs, rType), rs)
              && (forall k :: 0 <= k < |rs| ==> (k in idx <==> rs[k].kind == rType))
  {
    OfTypeIsFilter(rs, rType);
    var idx := FilterEmbedding(HasType(rType), rs);
  }

  /** `DeleteByType` hands the deleter no groups at all exactly when no
      configured kind has the requested type. */
  lemma TypedGroupsEmptyIff(rs: seq<ListTyper>, rType: string)
    ensures Map(ListedOf, OfType(rs, rType)) == [] <==> forall r :: r in rs ==> r.kind != rType
  {
    OfTypeIsFilter(rs, rType);
    FilterEmptyIff(HasType(rType), rs);
  }

  /** A line is logged while listing exactly when some kind's listing failed
      with that message, and then it is yellow. */
  lemma {:induction false} ErrorLinesIff(rs: seq<ListTyper>, colour: Colour, message: string)
    ensures Line(colour, message) in ErrorLines(rs)
            <==> colour == Yellow && exists r :: r in rs && r.listErr == Some(message)
    decreases |rs|
  {
    if rs != [] {
      var n := |rs| - 1;
      ErrorLinesIff(rs[..n], colour, message);
      assert rs == rs[..n] + [rs[n]];
      if exists r :: r in rs && r.listErr == Some(message) {
        var r :| r in rs && r.listErr == Some(message);
        if r != rs[n] {
          assert r in rs[..n];
        }
      }
    }
  }

  /** The error lines reach the logger in resource order, interleaved only
      with what the kinds' own `List()` calls log. */
  lemma {:induction false} ErrorLinesInListingLog(rs: seq<ListTyper>)
    ensures IsSubsequence(ErrorLines(rs), ListingLog(rs))
    decreases |rs|
  {
    if rs == [] {
      assert Embeds([], ErrorLines(rs), ListingLog(rs));
    } else {
      var n := |rs| - 1;
      var prefix := rs[..n];
      ErrorLinesInListingLog(prefix);
      assert rs == prefix + [rs[n]];
      ErrorLinesSnoc(prefix, rs[n]);
      ListingLogSnoc(prefix, rs[n]);
      SuffixIsSubsequence(rs[n].listLog, ErrorLine(rs[n]));
      SubsequenceConcat(ErrorLines(prefix), ListingLog(prefix), ErrorLine(rs[n]), KindLog(rs[n]));
    }
  }

  /** When no kind logs anything itself while listing, the error lines are
      all the logger receives. */
  lemma {:induction false} ListingLogOfSilentKinds(rs: seq<ListTyper>)
    requires forall k :: 0 <= k < |rs| ==> rs[k].listLog == []
    ensures ListingLog(rs) == ErrorLines(rs)
    decreases |rs|
  {
    if rs != [] {
      var n := |rs| - 1;
      var prefix := rs[..n];
      ListingLogOfSilentKinds(prefix);
      assert rs == prefix + [rs[n]];
      ErrorLinesSnoc(prefix, rs[n]);
      ListingLogSnoc(prefix, rs[n]);
    }
  }

  /** The error lines are, in resource order, one yellow line per failing
      kind carrying that kind's message, and nothing else. */
  lemma {:induction false} ErrorLinesAreFailures(rs: seq<ListTyper>)
    ensures ErrorLines(rs) == Map(FailureLine, Filter(ListFailed, rs))
    decreases |rs|
  {
    if rs != [] {
      var n := |rs| - 1;
      ErrorLinesAreFailures(rs[..n]);
      assert rs == rs[..n] + [rs[n]];
      FilterSnoc(ListFailed, rs[..n], rs[n]);
      if ListFailed(rs[n]) {
        MapSnoc(FailureLine, Filter(ListFailed, rs[..n]), rs[n]);
      }
    }
  }

  /** One error line per failing kind: listing errors are neither dropped nor
      repeated. */
  lemma ErrorLinesPerFailure(rs: seq<ListTyper>)
    ensures |ErrorLines(rs)| == |Filter(ListFailed, rs)|
  {
    ErrorLinesAreFailures(rs);
  }
}
