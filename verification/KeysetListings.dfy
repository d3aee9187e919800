/**
  The candidate listings: which domains a scanner should look at, grouped by the nameservers to ask.
 */
module KeysetListings {
  import opened Options
  import opened KeysetManagement
  import opened KeysetConditions
  import opened KeysetPrefix
  import opened DnsKeys

  datatype Row = Row(nameserver: string, domain: DomainId)

  /** The managed test as the queries state it. */
  predicate ListedAsManaged(k: Keyset, c: Config) {
    k.registrar == UpperAll(c.registrar) && ListingTest(k.handle, c.prefix)
  }

  /** The conditions that tell the three queries apart. */
  predicate Fits(r: Registry, c: Config, d: Domain, class_: Class) {
    match class_
    case Insecure => d.keyset.None?
    case Secure =>
      d.keyset.Some? && d.keyset.value in r.keysets && !ListedAsManaged(r.keysets[d.keyset.value], c)
    case Managed =>
      d.keyset.Some? && d.keyset.value in r.keysets && ListedAsManaged(r.keysets[d.keyset.value], c)
  }

  /** Served by the nameserver, in a managed zone and not outzone. */
  predicate Eligible(r: Registry, c: Config, d: Domain, nameserver: string) {
    && d.nsset.Some? && d.nsset.value in r.nssets && nameserver in r.nssets[d.nsset.value]
    && d.zone in c.zones && Outzone !in d.states
  }

  predicate Listed(r: Registry, c: Config, class_: Class, row: Row) {
    row.domain in r.domains && Eligible(r, c, r.domains[row.domain], row.nameserver)
    && Fits(r, c, r.domains[row.domain], class_)
  }

  /** What a query returns: every listed row, in some order, and nothing else. */
  ghost predicate IsResult(r: Registry, c: Config, class_: Class, rows: seq<Row>) {
    forall row :: row in rows <==> Listed(r, c, class_, row)
  }

  type NameserversDomains = map<string, set<DomainId>>

  ghost predicate Groups(rows: seq<Row>, result: NameserversDomains) {
    && (forall n :: n in result <==> exists d :: Row(n, d) in rows)
    && (forall n, d :: n in result ==> (d in result[n] <==> Row(n, d) in rows))
  }

  /** The loop that turns rows into sets of domains by nameserver. */
  method Collect(rows: seq<Row>) returns (result: NameserversDomains)
    ensures Groups(rows, result)
  {
    result := map[];
    for i := 0 to |rows|
      invariant Groups(rows[..i], result)
    {
      var row := rows[i];
      var before := result;
      result := result[row.nameserver :=
        (if row.nameserver in result then result[row.nameserver] else {}) + {row.domain}];
      GroupsOneMore(rows[..i], row, before, result);
      assert rows[..i + 1] == rows[..i] + [row];
    }
    assert rows[..|rows|] == rows;
  }

  lemma GroupsOneMore(rows: seq<Row>, row: Row, before: NameserversDomains, after: NameserversDomains)
    requires Groups(rows, before)
    requires after == before[row.nameserver :=
      (if row.nameserver in before then before[row.nameserver] else {}) + {row.domain}]
    ensures Groups(rows + [row], after)
  {
    var more := rows + [row];
    assert forall x :: x in more <==> x in rows || x == row;
    forall n ensures n in after <==> exists d :: Row(n, d) in more {
      if n == row.nameserver {
        assert Row(n, row.domain) in more;
      } else if n in before {
        var d :| Row(n, d) in rows;
        assert Row(n, d) in more;
      }
    }
  }

  /** Every eligible domain is found under each of its nameservers in exactly one of the three listings. */
  lemma ExactlyOneListing(r: Registry, c: Config, id: DomainId, nameserver: string,
      insecure: seq<Row>, secure: seq<Row>, managed: seq<Row>)
    requires Consistent(r)
    requires IsResult(r, c, Insecure, insecure) && IsResult(r, c, Secure, secure) && IsResult(r, c, Managed, managed)
    ensures var row := Row(nameserver, id);
      var eligible := id in r.domains && Eligible(r, c, r.domains[id], nameserver);
      && (eligible <==> row in insecure || row in secure || row in managed)
      && !(row in insecure && row in secure) && !(row in insecure && row in managed)
      && !(row in secure && row in managed)
  {
    var row := Row(nameserver, id);
    if id in r.domains && Eligible(r, c, r.domains[id], nameserver) {
      var d := r.domains[id];
      assert Fits(r, c, d, Insecure) || Fits(r, c, d, Secure) || Fits(r, c, d, Managed);
    }
    assert row in insecure <==> Listed(r, c, Insecure, row);
    assert row in secure <==> Listed(r, c, Secure, row);
    assert row in managed <==> Listed(r, c, Managed, row);
  }

  /** Registered handles are kept in upper case. */
  ghost predicate UpperCaseHandles(r: Registry) {
    forall k :: k in r.keysets ==> IsUpper(r.keysets[k].handle)
  }

  /** With an upper-case registrar and a plain prefix, a domain is listed where the operations expect it. */
  lemma ListedWhereExpected(r: Registry, c: Config, id: DomainId, nameserver: string, class_: Class)
    requires Consistent(r) && UpperCaseHandles(r)
    requires IsUpper(c.registrar) && Plain(c.prefix)
    requires id in r.domains && Eligible(r, c, r.domains[id], nameserver)
    ensures Listed(r, c, class_, Row(nameserver, id)) <==> ClassOf(r, c, id) == class_
  {
    var d := r.domains[id];
    if d.keyset.Some? {
      PlainPrefixAgrees(r.keysets[d.keyset.value].handle, c.prefix);
    }
  }

  /** What a listing holds: nameservers of domains in managed zones that are not outzone, by how they are secured. */
  lemma ListingHolds(r: Registry, c: Config, class_: Class, rows: seq<Row>, id: DomainId, nameserver: string)
    requires Consistent(r) && UpperCaseHandles(r)
    requires IsUpper(c.registrar) && Plain(c.prefix)
    requires IsResult(r, c, class_, rows)
    ensures Row(nameserver, id) in rows <==>
      && Serves(r, c, id) && Outzone !in r.domains[id].states
      && r.domains[id].nsset.Some? && r.domains[id].nsset.value in r.nssets
      && nameserver in r.nssets[r.domains[id].nsset.value]
      && match class_
         case Insecure => r.domains[id].keyset == None
         case Secure => r.domains[id].keyset != None && !OwnKeyset(r, c, id)
         case Managed => OwnKeyset(r, c, id)
  {
    assert Row(nameserver, id) in rows <==> Listed(r, c, class_, Row(nameserver, id));
    if id in r.domains && Eligible(r, c, r.domains[id], nameserver) {
      ListedWhereExpected(r, c, id, nameserver, class_);
    }
  }

  /** So an operation on a listed domain never fails for being of the wrong class. */
  lemma ListedDomainsAreAccepted(r: Registry, c: Config, op: Operation, nameserver: string)
    requires Consistent(r) && UpperCaseHandles(r)
    requires IsUpper(c.registrar) && Plain(c.prefix)
    requires Manages(op) && Listed(r, c, From(op), Row(nameserver, op.id))
    ensures var o := OutcomeOf(r, c, op);
      o.Failed? ==>
        o.error !in {ObjectNotFound, DomainHasKeyset, DomainDoesNotHaveKeyset, DomainNssetIsEmpty,
          DomainAlreadyHasAutomaticallyManagedKeyset, DomainDoesNotHaveAutomaticallyManagedKeyset}
  {
    ListedWhereExpected(r, c, op.id, nameserver, From(op));
  }
}
