/** `ec2.NetworkInterfaces`: lists the account's EC2 network interfaces and
    keeps those whose name passes the filter and that the operator confirms. */
module Ec2NetworkInterfaces {
  import opened Common
  import opened Sequences
  import opened App

  const DescribeErrorPrefix: string := "Describing EC2 Network Interfaces: "

  datatype Tag = Tag(key: string, value: string)

  /** One entry of a `DescribeNetworkInterfaces` answer. */
  datatype InterfaceDescription = InterfaceDescription(networkInterfaceId: string, tagSet: seq<Tag>)

  /** A call made on the EC2 client, in the order made. */
  datatype ClientCall = DescribeCall | DeleteCall(networkInterfaceId: string)

  /** The `networkInterfacesClient` interface: what the account holds is fixed
      up front, and every call is recorded. */
  class NetworkInterfacesClient {
    const described: Result<seq<InterfaceDescription>>
    const deleteOutcome: string -> Option<string>
    var calls: seq<ClientCall>

    constructor (described: Result<seq<InterfaceDescription>>, deleteOutcome: string -> Option<string>)
      ensures this.described == described && this.deleteOutcome == deleteOutcome && calls == []
    {
      this.described := described;
      this.deleteOutcome := deleteOutcome;
      calls := [];
    }

    method DescribeNetworkInterfaces() returns (out: Result<seq<InterfaceDescription>>)
      modifies this
      ensures out == described
      ensures calls == old(calls) + [DescribeCall]
    {
      calls := calls + [DescribeCall];
      out := described;
    }

    method DeleteNetworkInterface(networkInterfaceId: string) returns (err: Option<string>)
      modifies this
      ensures err == deleteOutcome(networkInterfaceId)
      ensures calls == old(calls) + [DeleteCall(networkInterfaceId)]
    {
      calls := calls + [DeleteCall(networkInterfaceId)];
      err := deleteOutcome(networkInterfaceId);
    }
  }

  /** The resource passes the name filter (`common.ResourceMatches`). */
  function Matching(resourceMatches: (string, string, bool) -> bool, filter: string, regex: bool): Deletable -> bool
  {
    (d: Deletable) => resourceMatches(d.name, filter, regex)
  }

  /** The operator answers yes when asked about the resource. */
  function Answered(answer: (string, string) -> bool): Deletable -> bool
  {
    (d: Deletable) => answer(d.kind, d.name)
  }

  /** The resource passes the name filter and the operator confirms it. */
  function Confirmed(resourceMatches: (string, string, bool) -> bool, filter: string, regex: bool,
                     answer: (string, string) -> bool): Deletable -> bool
  {
    (d: Deletable) => resourceMatches(d.name, filter, regex) && answer(d.kind, d.name)
  }

  /** The prompt the operator is shown for a resource. */
  function PromptFor(d: Deletable): LogEvent
  {
    Prompt(d.kind, d.name)
  }

  class NetworkInterfaces {
    const client: NetworkInterfacesClient
    const logger: Logger
    /** `common.ResourceMatches`, whose definition is not part of this model. */
    const resourceMatches: (string, string, bool) -> bool
    /** `NewNetworkInterface`, whose definition is not part of this model. */
    const newNetworkInterface: InterfaceDescription -> Deletable

    constructor (client: NetworkInterfacesClient, logger: Logger,
                 resourceMatches: (string, string, bool) -> bool,
                 newNetworkInterface: InterfaceDescription -> Deletable)
      ensures this.client == client && this.logger == logger
      ensures this.resourceMatches == resourceMatches && this.newNetworkInterface == newNetworkInterface
    {
      this.client := client;
      this.logger := logger;
      this.resourceMatches := resourceMatches;
      this.newNetworkInterface := newNetworkInterface;
    }

    /** Describes the interfaces once; if that fails, returns no resources and
        the error behind a fixed prefix. Otherwise walks the interfaces in
        order, prompts for exactly those whose name passes the filter, and
        keeps those the operator confirms. The client sees one Describe call
        and nothing else: listing never deletes. */
    method List(filter: string, regex: bool) returns (resources: seq<Deletable>, err: Option<string>)
      modifies client, logger
      ensures client.calls == old(client.calls) + [DescribeCall]
      ensures client.described.Failure? ==>
                && resources == []
                && err == Some(DescribeErrorPrefix + client.described.error)
                && logger.events == old(logger.events)
      ensures client.described.Success? ==>
                var all := Map(newNetworkInterface, client.described.value);
                && err == None
                && resources == Filter(Confirmed(resourceMatches, filter, regex, logger.answer), all)
                && logger.events == old(logger.events) + Map(PromptFor, Filter(Matching(resourceMatches, filter, regex), all))
    {
      var networkInterfaces := client.DescribeNetworkInterfaces();
      if networkInterfaces.Failure? {
        return [], Some(DescribeErrorPrefix + networkInterfaces.error);
      }

      var interfaces := networkInterfaces.value;
      ghost var keep := Confirmed(resourceMatches, filter, regex, logger.answer);
      ghost var ask := Matching(resourceMatches, filter, regex);
      resources := [];
      for i := 0 to |interfaces|
        invariant client.calls == old(client.calls) + [DescribeCall]
        invariant resources == Filter(keep, Map(newNetworkInterface, interfaces[..i]))
        invariant logger.events == old(logger.events) + Map(PromptFor, Filter(ask, Map(newNetworkInterface, interfaces[..i])))
      {
        ghost var seen := Map(newNetworkInterface, interfaces[..i]);
        var r := newNetworkInterface(interfaces[i]);
        assert interfaces[..i + 1] == interfaces[..i] + [interfaces[i]];
        MapSnoc(newNetworkInterface, interfaces[..i], interfaces[i]);
        FilterSnoc(keep, seen, r);
        FilterSnoc(ask, seen, r);

        if !resourceMatches(r.name, filter, regex) {
          continue;
        }

        var proceed := logger.PromptWithDetails(r.kind, r.name);
        MapSnoc(PromptFor, Filter(ask, seen), r);
        if !proceed {
          continue;
        }

        resources := resources + [r];
      }
      assert interfaces[..|interfaces|] == interfaces;
      err := None;
    }

    function Type(): (t: string)
      ensures t == "ec2-network-interface"
    {
      "ec2-network-interface"
    }
  }

  /** A resource is returned only after its prompt was answered: the
      confirmed resources are those the operator said yes to among the
      prompted ones, in the same order. */
  lemma ConfirmedAmongPrompted(resourceMatches: (string, string, bool) -> bool, filter: string, regex: bool,
                               answer: (string, string) -> bool, all: seq<Deletable>)
    ensures Filter(Confirmed(resourceMatches, filter, regex, answer), all)
         == Filter(Answered(answer), Filter(Matching(resourceMatches, filter, regex), all))
  {
    FilterConjunction(Matching(resourceMatches, filter, regex), Answered(answer),
                      Confirmed(resourceMatches, filter, regex, answer), all);
  }

  /** The returned resources are the listed ones with some dropped and the
      rest in their original order; so there are never more of them. */
  lemma SelectionIsOrderedSubsequence(resourceMatches: (string, string, bool) -> bool, filter: string, regex: bool,
                                      answer: (string, string) -> bool,
                                      newNetworkInterface: InterfaceDescription -> Deletable,
                                      interfaces: seq<InterfaceDescription>)
    ensures var selected := Filter(Confirmed(resourceMatches, filter, regex, answer), Map(newNetworkInterface, interfaces));
            IsSubsequence(selected, Map(newNetworkInterface, interfaces)) && |selected| <= |interfaces|
  {
    FilterIsSubsequence(Confirmed(resourceMatches, filter, regex, answer), Map(newNetworkInterface, interfaces));
  }

  /** A resource is returned exactly when some described interface yields it,
      its name passes the filter, and the operator confirms it. */
  lemma SelectedIff(resourceMatches: (string, string, bool) -> bool, filter: string, regex: bool,
                    answer: (string, string) -> bool,
                    newNetworkInterface: InterfaceDescription -> Deletable,
                    interfaces: seq<InterfaceDescription>, d: Deletable)
    ensures d in Filter(Confirmed(resourceMatches, filter, regex, answer), Map(newNetworkInterface, interfaces))
            <==> (exists k :: 0 <= k < |interfaces| && newNetworkInterface(interfaces[k]) == d)
                 && resourceMatches(d.name, filter, regex) && answer(d.kind, d.name)
  {
    var all := Map(newNetworkInterface, interfaces);
    FilterMembership(Confirmed(resourceMatches, filter, regex, answer), all, d);
    if d in all {
      var k :| 0 <= k < |all| && all[k] == d;
    }
  }

  /** `List` prompts once for every described interface whose name passes
      the filter, in listing order, and for no other position: two matching
      interfaces with the same type and name are both asked about. */
  lemma OnePromptPerMatch(resourceMatches: (string, string, bool) -> bool, filter: string, regex: bool,
                          all: seq<Deletable>)
    ensures exists idx: seq<nat> ::
              && Embeds(idx, Filter(Matching(resourceMatches, filter, regex), all), all)
              && (forall k :: 0 <= k < |all| ==> (k in idx <==> resourceMatches(all[k].name, filter, regex)))
  {
    var matching := Matching(resourceMatches, filter, regex);
    var idx := FilterEmbedding(matching, all);
    forall k | 0 <= k < |all|
      ensures k in idx <==> resourceMatches(all[k].name, filter, regex)
    {
      assert matching(all[k]) == resourceMatches(all[k].name, filter, regex);
    }
  }

  /** Every prompt is for a described interface whose name passes the filter;
      an interface that fails the filter is never asked about. */
  lemma PromptsOnlyForMatches(resourceMatches: (string, string, bool) -> bool, filter: string, regex: bool,
                              all: seq<Deletable>, e: LogEvent)
    requires e in Map(PromptFor, Filter(Matching(resourceMatches, filter, regex), all))
    ensures e.Prompt?
    ensures Deletable(e.kind, e.name) in all && resourceMatches(e.name, filter, regex)
  {
    var asked := Filter(Matching(resourceMatches, filter, regex), all);
    var k :| 0 <= k < |asked| && Map(PromptFor, asked)[k] == e;
    FilterMembership(Matching(resourceMatches, filter, regex), all, asked[k]);
  }
}
