/**
  The search query of the disclose flags updater. Its WHERE clause is text put together piece by piece; here it is the
  sequence of its tokens, read back by the precedence rules of SQL (OR, AND, NOT, IS from loose to tight) and evaluated
  in SQL's three-valued logic, where a flag may be NULL.
 */
module DiscloseQuery {
  import opened Options
  import opened Strings

  datatype Truth = True | False | Null

  datatype Column = Name | Organization | Telephone | Fax | Email | Vat | Ident | NotifyEmail | Address

  datatype Flags = Flags(
    name: Truth, organization: Truth, telephone: Truth, fax: Truth, email: Truth,
    vat: Truth, ident: Truth, notifyEmail: Truth, address: Truth)
  {
    function Get(column: Column): Truth {
      match column
      case Name => name
      case Organization => organization
      case Telephone => telephone
      case Fax => fax
      case Email => email
      case Vat => vat
      case Ident => ident
      case NotifyEmail => notifyEmail
      case Address => address
    }
  }

  /** A contact as the query sees it: the names of its current states, its organization (or NULL) and its flags. */
  datatype Contact = Contact(states: set<string>, organization: Option<string>, flags: Flags)
  {
    /** coalesce(btrim(organization), '') = '' */
    predicate NoOrganization() {
      organization.None? || Blank(organization.value)
    }

    predicate HideAddressAllowed() {
      ("identifiedContact" in states || "validatedContact" in states) && NoOrganization()
    }
  }

  datatype DiscloseValue = NotSet | Hide | Show

  datatype DiscloseAddressValue = AddressNotSet | AddressHide | AddressShow | HideVerified

  datatype Settings = Settings(
    name: DiscloseValue, org: DiscloseValue, voice: DiscloseValue, fax: DiscloseValue, email: DiscloseValue,
    vat: DiscloseValue, ident: DiscloseValue, notifyEmail: DiscloseValue, addr: DiscloseAddressValue)
  {
    predicate IsEmpty() {
      && name.NotSet? && org.NotSet? && addr.AddressNotSet? && voice.NotSet? && fax.NotSet?
      && email.NotSet? && vat.NotSet? && ident.NotSet? && notifyEmail.NotSet?
    }
  }

  function OfBool(b: bool): Truth {
    if b then True else False
  }

  // ---- the update of one contact ----

  function Overwrite(flag: Truth, value: DiscloseValue): Truth {
    match value
    case NotSet => flag
    case Hide => False
    case Show => True
  }

  function OverwriteAddress(flag: Truth, value: DiscloseAddressValue, hideAllowed: bool): Truth {
    match value
    case AddressNotSet => flag
    case AddressHide => False
    case AddressShow => True
    case HideVerified => OfBool(!hideAllowed)
  }

  /** What update_contact_disclose_flag_impl leaves of a contact's flags. */
  function Updated(c: Contact, s: Settings, hideAllowed: bool): Contact {
    var f := c.flags;
    c.(flags := Flags(
      Overwrite(f.name, s.name), Overwrite(f.organization, s.org), Overwrite(f.telephone, s.voice),
      Overwrite(f.fax, s.fax), Overwrite(f.email, s.email), Overwrite(f.vat, s.vat),
      Overwrite(f.ident, s.ident), Overwrite(f.notifyEmail, s.notifyEmail),
      OverwriteAddress(f.address, s.addr, hideAllowed)))
  }

  // ---- SQL ----

  datatype Token = Flag(column: Column) | Allowed | IsNot | Literal(value: bool) | Or | And | Not | Open | Close

  datatype Expr =
    | Column(column: Column)
    | HideAllowed
    | IsNotExpr(arg: Expr, value: bool)
    | NotExpr(arg: Expr)
    | AndExpr(left: Expr, right: Expr)
    | OrExpr(left: Expr, right: Expr)

  datatype Parse = Failure | Success(expr: Expr, rest: seq<Token>)

  function ParseOr(ts: seq<Token>): (p: Parse)
    ensures p.Success? ==> |p.rest| < |ts|
    decreases |ts|, 4
  {
    var a := ParseAnd(ts);
    if a.Success? && |a.rest| > 0 && a.rest[0] == Or then
      var b := ParseOr(a.rest[1..]);
      if b.Failure? then Failure else Success(OrExpr(a.expr, b.expr), b.rest)
    else a
  }

  function ParseAnd(ts: seq<Token>): (p: Parse)
    ensures p.Success? ==> |p.rest| < |ts|
    decreases |ts|, 3
  {
    var a := ParseNot(ts);
    if a.Success? && |a.rest| > 0 && a.rest[0] == And then
      var b := ParseAnd(a.rest[1..]);
      if b.Failure? then Failure else Success(AndExpr(a.expr, b.expr), b.rest)
    else a
  }

  function ParseNot(ts: seq<Token>): (p: Parse)
    ensures p.Success? ==> |p.rest| < |ts|
    decreases |ts|, 2
  {
    if |ts| > 0 && ts[0] == Not then
      var a := ParseNot(ts[1..]);
      if a.Failure? then Failure else Success(NotExpr(a.expr), a.rest)
    else ParseIs(ts)
  }

  function ParseIs(ts: seq<Token>): (p: Parse)
    ensures p.Success? ==> |p.rest| < |ts|
    decreases |ts|, 1
  {
    var a := ParsePrimary(ts);
    if a.Success? && |a.rest| > 0 && a.rest[0] == IsNot then
      if |a.rest| > 1 && a.rest[1].Literal? then Success(IsNotExpr(a.expr, a.rest[1].value), a.rest[2..]) else Failure
    else a
  }

  function ParsePrimary(ts: seq<Token>): (p: Parse)
    ensures p.Success? ==> |p.rest| < |ts|
    decreases |ts|, 0
  {
    if |ts| == 0 then Failure
    else
      match ts[0]
      case Flag(column) => Success(Column(column), ts[1..])
      case Allowed => Success(HideAllowed, ts[1..])
      case Open =>
        var inner := ParseOr(ts[1..]);
        if inner.Success? && |inner.rest| > 0 && inner.rest[0] == Close then Success(inner.expr, inner.rest[1..])
        else Failure
      case _ => Failure
  }

  function Eval(e: Expr, c: Contact): Truth {
    match e
    case Column(column) => c.flags.Get(column)
    case HideAllowed => OfBool(c.HideAddressAllowed())
    case IsNotExpr(arg, value) => OfBool(Eval(arg, c) != OfBool(value))
    case NotExpr(arg) =>
      (match Eval(arg, c)
       case True => False
       case False => True
       case Null => Null)
    case AndExpr(left, right) =>
      var l, r := Eval(left, c), Eval(right, c);
      if l == False || r == False then False else if l == True && r == True then True else Null
    case OrExpr(left, right) =>
      var l, r := Eval(left, c), Eval(right, c);
      if l == True || r == True then True else if l == False && r == False then False else Null
  }

  /** A WHERE clause selects the rows on which it is true; NULL does not select. None if the clause is not SQL. */
  predicate Selects(clause: seq<Token>, c: Contact) {
    var p := ParseOr(clause);
    p.Success? && p.rest == [] && Eval(p.expr, c) == True
  }

  predicate IsSql(clause: seq<Token>) {
    var p := ParseOr(clause);
    p.Success? && p.rest == []
  }

  // ---- the builder ----

  function Condition(column: Column, value: DiscloseValue): seq<Token> {
    match value
    case NotSet => []
    case Hide => [Flag(column), IsNot, Literal(false)]
    case Show => [Flag(column), IsNot, Literal(true)]
  }

  function PlainAddress(value: DiscloseAddressValue): seq<Token> {
    match value
    case AddressHide => Condition(Address, Hide)
    case AddressShow => Condition(Address, Show)
    case _ => []
  }

  method SqlOr(sql: seq<Token>, expr: seq<Token>) returns (r: seq<Token>)
    ensures r == if expr == [] then sql else if sql == [] then expr else sql + [Or] + expr
  {
    r := sql;
    if expr != [] {
      if r != [] {
        r := r + [Or];
      }
      r := r + expr;
    }
  }

  // ---- what the clause consists of ----

  /** One disjunct: a flag that is not what it should be, or the address of a contact of one kind. */
  datatype Term = Differs(column: Column, want: bool) | AddressOf(allowed: bool, want: bool)

  function Tokens(t: Term): seq<Token> {
    match t
    case Differs(column, want) => [Flag(column), IsNot, Literal(want)]
    case AddressOf(true, want) => [Open, Allowed, And] + [Flag(Address), IsNot, Literal(want)] + [Close]
    case AddressOf(false, want) => [Open, Not, Allowed, And] + [Flag(Address), IsNot, Literal(want)] + [Close]
  }

  function TermExpr(t: Term): Expr {
    match t
    case Differs(column, want) => IsNotExpr(Column(column), want)
    case AddressOf(true, want) => AndExpr(HideAllowed, IsNotExpr(Column(Address), want))
    case AddressOf(false, want) => AndExpr(NotExpr(HideAllowed), IsNotExpr(Column(Address), want))
  }

  predicate Holds(t: Term, c: Contact) {
    match t
    case Differs(column, want) => c.flags.Get(column) != OfBool(want)
    case AddressOf(allowed, want) => c.HideAddressAllowed() == allowed && c.flags.address != OfBool(want)
  }

  /** The disjuncts, last one first in the recursion as the clause grows at its end. */
  function Joined(ts: seq<Term>): seq<Token> {
    if |ts| == 0 then []
    else if |ts| == 1 then Tokens(ts[0])
    else Joined(ts[..|ts| - 1]) + [Or] + Tokens(ts[|ts| - 1])
  }

  function TermsOf(column: Column, value: DiscloseValue): seq<Term> {
    match value
    case NotSet => []
    case Hide => [Differs(column, false)]
    case Show => [Differs(column, true)]
  }

  function AddressTerms(value: DiscloseAddressValue): seq<Term> {
    match value
    case AddressNotSet => []
    case AddressHide => [Differs(Address, false)]
    case AddressShow => [Differs(Address, true)]
    case HideVerified => [AddressOf(true, false), AddressOf(false, true)]
  }

  /** make_query_search_contact_needs_update, its WHERE clause. */
  method MakeClause(s: Settings) returns (clause: seq<Token>)
    ensures clause == Joined(Terms(s))
  {
    clause := [];
    ghost var ts: seq<Term> := [];
    clause, ts := AddTerms(clause, ts, Name, s.name);
    clause, ts := AddTerms(clause, ts, Organization, s.org);
    clause, ts := AddTerms(clause, ts, Telephone, s.voice);
    clause, ts := AddTerms(clause, ts, Fax, s.fax);
    clause, ts := AddTerms(clause, ts, Email, s.email);
    clause, ts := AddTerms(clause, ts, Vat, s.vat);
    clause, ts := AddTerms(clause, ts, Ident, s.ident);
    clause, ts := AddTerms(clause, ts, NotifyEmail, s.notifyEmail);
    clause, ts := AddAddress(clause, ts, s.addr);
  }

  method AddAddress(sql: seq<Token>, ghost ts: seq<Term>, addr: DiscloseAddressValue)
      returns (clause: seq<Token>, ghost rs: seq<Term>)
    requires sql == Joined(ts)
    ensures clause == Joined(rs) && rs == ts + AddressTerms(addr)
  {
    if addr == HideVerified {
      var hidden := [Open, Allowed, And] + Condition(Address, Hide) + [Close];
      clause, rs := AddOne(sql, ts, hidden, AddressOf(true, false));
      var shown := [Open, Not, Allowed, And] + Condition(Address, Show) + [Close];
      clause, rs := AddOne(clause, rs, shown, AddressOf(false, true));
    } else if addr == AddressNotSet {
      clause := SqlOr(sql, PlainAddress(addr));
      rs := ts;
      assert ts == ts + AddressTerms(addr);
    } else {
      clause, rs := AddOne(sql, ts, PlainAddress(addr), AddressTerms(addr)[0]);
    }
  }

  method AddOne(sql: seq<Token>, ghost ts: seq<Term>, expr: seq<Token>, ghost t: Term)
      returns (r: seq<Token>, ghost rs: seq<Term>)
    requires sql == Joined(ts) && expr == Tokens(t)
    ensures r == Joined(rs) && rs == ts + [t]
  {
    r := SqlOr(sql, expr);
    rs := ts + [t];
    JoinedOne(ts, t);
  }

  method AddTerms(sql: seq<Token>, ghost ts: seq<Term>, column: Column, value: DiscloseValue)
      returns (r: seq<Token>, ghost rs: seq<Term>)
    requires sql == Joined(ts)
    ensures r == Joined(rs) && rs == ts + TermsOf(column, value)
  {
    r := SqlOr(sql, Condition(column, value));
    rs := ts + TermsOf(column, value);
    if value == NotSet {
      assert rs == ts;
    } else {
      JoinedOne(ts, TermsOf(column, value)[0]);
    }
  }

  lemma JoinedOne(ts: seq<Term>, t: Term)
    ensures Tokens(t) != []
    ensures Joined(ts) == [] <==> ts == []
    ensures Joined(ts + [t]) == if ts == [] then Tokens(t) else Joined(ts) + [Or] + Tokens(t)
  {
    assert (ts + [t])[..|ts|] == ts;
    if ts != [] {
      assert |Tokens(ts[|ts| - 1])| > 0;
    }
  }

  function Terms(s: Settings): seq<Term> {
    TermsOf(Name, s.name) + TermsOf(Organization, s.org) + TermsOf(Telephone, s.voice) + TermsOf(Fax, s.fax)
    + TermsOf(Email, s.email) + TermsOf(Vat, s.vat) + TermsOf(Ident, s.ident) + TermsOf(NotifyEmail, s.notifyEmail)
    + AddressTerms(s.addr)
  }

  // ---- what the clause means ----

  predicate EndsTerm(rest: seq<Token>) {
    rest == [] || rest[0] == Or || rest[0] == Close
  }

  lemma PlainParses(column: Column, want: bool, rest: seq<Token>)
    requires EndsTerm(rest)
    ensures ParseAnd([Flag(column), IsNot, Literal(want)] + rest) == Success(IsNotExpr(Column(column), want), rest)
  {
    var ts := [Flag(column), IsNot, Literal(want)] + rest;
    assert ts[1..][2..] == rest;
    assert ParsePrimary(ts) == Success(Column(column), ts[1..]);
    assert ParseIs(ts) == Success(IsNotExpr(Column(column), want), rest);
    assert ParseNot(ts) == ParseIs(ts);
  }

  lemma AllowedParses(allowed: bool, rest: seq<Token>)
    ensures var ts := (if allowed then [Allowed] else [Not, Allowed]) + [And] + rest;
      ParseNot(ts) == Success(if allowed then HideAllowed else NotExpr(HideAllowed), [And] + rest)
  {
    var ts := [Allowed] + [And] + rest;
    assert ts[1..] == [And] + rest;
    assert ParseNot(ts) == ParseIs(ts) == Success(HideAllowed, [And] + rest);
    assert ([Not, Allowed] + [And] + rest)[1..] == ts;
  }

  lemma TermParses(t: Term, rest: seq<Token>)
    requires EndsTerm(rest)
    ensures ParseAnd(Tokens(t) + rest) == Success(TermExpr(t), rest)
  {
    match t {
      case Differs(column, want) => PlainParses(column, want, rest);
      case AddressOf(allowed, want) => AddressParses(allowed, want, rest);
    }
  }

  lemma InnerParses(allowed: bool, want: bool, rest: seq<Token>)
    requires EndsTerm(rest)
    ensures ParseOr(Inner(allowed, want) + ([Close] + rest)) ==
      Success(TermExpr(AddressOf(allowed, want)), [Close] + rest)
  {
    var plain := [Flag(Address), IsNot, Literal(want)] + ([Close] + rest);
    var inner := Inner(allowed, want) + ([Close] + rest);
    assert inner == (if allowed then [Allowed] else [Not, Allowed]) + [And] + plain;
    PlainParses(Address, want, [Close] + rest);
    AllowedParses(allowed, plain);
    assert ([And] + plain)[1..] == plain;
    assert ParseAnd(inner) == Success(TermExpr(AddressOf(allowed, want)), [Close] + rest);
  }

  /** What stands between the parentheses. */
  function Inner(allowed: bool, want: bool): seq<Token> {
    (if allowed then [Allowed] else [Not, Allowed]) + [And] + [Flag(Address), IsNot, Literal(want)]
  }

  lemma AddressTokens(allowed: bool, want: bool, rest: seq<Token>)
    ensures Tokens(AddressOf(allowed, want)) + rest == [Open] + (Inner(allowed, want) + ([Close] + rest))
  {
    assert Tokens(AddressOf(allowed, want)) == [Open] + Inner(allowed, want) + [Close];
  }

  lemma AddressParses(allowed: bool, want: bool, rest: seq<Token>)
    requires EndsTerm(rest)
    ensures ParseAnd(Tokens(AddressOf(allowed, want)) + rest) == Success(TermExpr(AddressOf(allowed, want)), rest)
  {
    InnerParses(allowed, want, rest);
    var inner := Inner(allowed, want) + ([Close] + rest);
    var ts := Tokens(AddressOf(allowed, want)) + rest;
    AddressTokens(allowed, want, rest);
    Parenthesized(ts, inner, TermExpr(AddressOf(allowed, want)), rest);
  }

  lemma Parenthesized(ts: seq<Token>, inner: seq<Token>, e: Expr, rest: seq<Token>)
    requires EndsTerm(rest) && ts == [Open] + inner && ParseOr(inner) == Success(e, [Close] + rest)
    ensures ParseAnd(ts) == Success(e, rest)
  {
    assert ts[1..] == inner;
    assert ([Close] + rest)[1..] == rest;
    assert ParsePrimary(ts) == Success(e, rest);
    assert ParseIs(ts) == Success(e, rest);
    assert ParseNot(ts) == Success(e, rest);
  }

  /** A disjunction read from the left end on, though the clause was written from the left as well. */
  function Disjunction(ts: seq<Term>): Expr
    requires ts != []
  {
    if |ts| == 1 then TermExpr(ts[0]) else OrExpr(TermExpr(ts[0]), Disjunction(ts[1..]))
  }

  lemma {:induction false} JoinedFromLeft(ts: seq<Term>)
    requires |ts| > 1
    ensures Joined(ts) == Tokens(ts[0]) + [Or] + Joined(ts[1..])
  {
    var last := |ts| - 1;
    if last > 1 {
      JoinedFromLeft(ts[..last]);
      var middle := Joined(ts[1..][..last - 1]);
      assert ts[..last][1..] == ts[1..][..last - 1];
      assert Joined(ts[..last]) == Tokens(ts[0]) + [Or] + middle;
      Associative(Tokens(ts[0]) + [Or], middle, [Or] + Tokens(ts[last]));
      assert Joined(ts[1..]) == middle + ([Or] + Tokens(ts[last])) by {
        Associative(middle, [Or], Tokens(ts[last]));
      }
      Associative(Joined(ts[..last]), [Or], Tokens(ts[last]));
    } else {
      assert ts[..1] == [ts[0]] && ts[1..] == [ts[1]];
    }
  }

  lemma Alternative(ts: seq<Token>, first: Expr, rest: seq<Token>, second: seq<Token>, others: Expr)
    requires ParseAnd(ts) == Success(first, rest) && rest == [Or] + second
    requires ParseOr(second) == Success(others, [])
    ensures ParseOr(ts) == Success(OrExpr(first, others), [])
  {
    assert rest[1..] == second;
  }

  lemma {:induction false} JoinedParses(ts: seq<Term>)
    requires ts != []
    ensures ParseOr(Joined(ts)) == Success(Disjunction(ts), [])
    decreases |ts|
  {
    if |ts| == 1 {
      TermParses(ts[0], []);
      assert Tokens(ts[0]) + [] == Joined(ts);
    } else {
      JoinedFromLeft(ts);
      JoinedParses(ts[1..]);
      var rest := [Or] + Joined(ts[1..]);
      Associative(Tokens(ts[0]), [Or], Joined(ts[1..]));
      TermParses(ts[0], rest);
      Alternative(Joined(ts), TermExpr(ts[0]), rest, Joined(ts[1..]), Disjunction(ts[1..]));
    }
  }

  ghost predicate AnyHolds(ts: seq<Term>, c: Contact) {
    exists k :: 0 <= k < |ts| && Holds(ts[k], c)
  }

  lemma TermEval(t: Term, c: Contact)
    ensures Eval(TermExpr(t), c) == OfBool(Holds(t, c))
  {
    assert Eval(HideAllowed, c) == OfBool(c.HideAddressAllowed());
    if t.AddressOf? {
      assert Eval(IsNotExpr(Column(Address), t.want), c) == OfBool(c.flags.address != OfBool(t.want));
    }
  }

  lemma {:induction false} DisjunctionEval(ts: seq<Term>, c: Contact)
    requires ts != []
    ensures Eval(Disjunction(ts), c) == OfBool(AnyHolds(ts, c))
    decreases |ts|
  {
    TermEval(ts[0], c);
    if |ts| > 1 {
      DisjunctionEval(ts[1..], c);
      assert AnyHolds(ts, c) <==> Holds(ts[0], c) || AnyHolds(ts[1..], c) by {
        assert forall k :: 0 < k < |ts| ==> ts[k] == ts[1..][k - 1];
      }
    }
  }

  /** The clause is never NULL and picks exactly the contacts some disjunct holds of. */
  lemma ClauseSelects(ts: seq<Term>, c: Contact)
    ensures IsSql(Joined(ts)) <==> ts != []
    ensures Selects(Joined(ts), c) <==> AnyHolds(ts, c)
  {
    if ts != [] {
      JoinedParses(ts);
      DisjunctionEval(ts, c);
    } else {
      assert ParseIs([]) == Failure;
      assert ParseAnd([]) == Failure;
    }
  }

  lemma AnyHoldsConcat(a: seq<Term>, b: seq<Term>, c: Contact)
    ensures AnyHolds(a + b, c) <==> AnyHolds(a, c) || AnyHolds(b, c)
  {
    if AnyHolds(b, c) {
      var k :| 0 <= k < |b| && Holds(b[k], c);
      assert (a + b)[|a| + k] == b[k];
    }
    if AnyHolds(a, c) {
      var k :| 0 <= k < |a| && Holds(a[k], c);
      assert (a + b)[k] == a[k];
    }
  }

  lemma TermsOfMean(column: Column, value: DiscloseValue, c: Contact)
    ensures AnyHolds(TermsOf(column, value), c) <==> Overwrite(c.flags.Get(column), value) != c.flags.Get(column)
  {
    if value != NotSet {
      assert TermsOf(column, value)[0] == Differs(column, value == Show);
    }
  }

  lemma AddressTermsMean(value: DiscloseAddressValue, c: Contact)
    ensures AnyHolds(AddressTerms(value), c) <==>
      OverwriteAddress(c.flags.address, value, c.HideAddressAllowed()) != c.flags.address
  {
    var ts := AddressTerms(value);
    if value == HideVerified {
      assert ts[0] == AddressOf(true, false) && ts[1] == AddressOf(false, true);
    } else if value != AddressNotSet {
      assert ts[0] == Differs(Address, value == AddressShow);
    }
  }

  lemma TermsMean(s: Settings, c: Contact)
    ensures AnyHolds(Terms(s), c) <==> Updated(c, s, c.HideAddressAllowed()) != c
  {
    TermsOfMean(Name, s.name, c);
    TermsOfMean(Organization, s.org, c);
    TermsOfMean(Telephone, s.voice, c);
    TermsOfMean(Fax, s.fax, c);
    TermsOfMean(Email, s.email, c);
    TermsOfMean(Vat, s.vat, c);
    TermsOfMean(Ident, s.ident, c);
    TermsOfMean(NotifyEmail, s.notifyEmail, c);
    AddressTermsMean(s.addr, c);
    var t2 := TermsOf(Name, s.name) + TermsOf(Organization, s.org);
    AnyHoldsConcat(TermsOf(Name, s.name), TermsOf(Organization, s.org), c);
    var t3 := t2 + TermsOf(Telephone, s.voice);
    AnyHoldsConcat(t2, TermsOf(Telephone, s.voice), c);
    var t4 := t3 + TermsOf(Fax, s.fax);
    AnyHoldsConcat(t3, TermsOf(Fax, s.fax), c);
    var t5 := t4 + TermsOf(Email, s.email);
    AnyHoldsConcat(t4, TermsOf(Email, s.email), c);
    var t6 := t5 + TermsOf(Vat, s.vat);
    AnyHoldsConcat(t5, TermsOf(Vat, s.vat), c);
    var t7 := t6 + TermsOf(Ident, s.ident);
    AnyHoldsConcat(t6, TermsOf(Ident, s.ident), c);
    var t8 := t7 + TermsOf(NotifyEmail, s.notifyEmail);
    AnyHoldsConcat(t7, TermsOf(NotifyEmail, s.notifyEmail), c);
    AnyHoldsConcat(t8, AddressTerms(s.addr), c);
  }

  /** The query is SQL unless nothing is set, and selects exactly the contacts the update would change. */
  lemma QuerySelectsWhatUpdateChanges(s: Settings, c: Contact)
    ensures IsSql(Joined(Terms(s))) <==> !s.IsEmpty()
    ensures Selects(Joined(Terms(s)), c) <==> Updated(c, s, c.HideAddressAllowed()) != c
  {
    ClauseSelects(Terms(s), c);
    TermsMean(s, c);
    assert Terms(s) == [] <==> s.IsEmpty();
  }
}
