/**
  The disclose flags updater seen from mojeID: what it does to the rows of mojeID's contacts is what the runs of mojeID
  assume of it, and it establishes the rule for hidden addresses.
 */
module MojeIdUpdater {
  import opened Options
  import opened Strings
  import opened MojeIdContact
  import opened MojeIdEffects
  import opened MojeIdAddress
  import DiscloseQuery
  import DiscloseUpdater

  function StateName(s: State): string {
    match s
    case ConditionallyIdentified => "conditionallyIdentifiedContact"
    case Identified => "identifiedContact"
    case Validated => "validatedContact"
    case MojeId => "mojeidContact"
    case ServerDeleteProhibited => "serverDeleteProhibited"
    case ServerTransferProhibited => "serverTransferProhibited"
    case ServerUpdateProhibited => "serverUpdateProhibited"
    case ServerBlocked => "serverBlocked"
    case Linked => "linked"
    case FailedManualVerification => "contactFailedManualVerification"
    case PassedManualVerification => "contactPassedManualVerification"
  }

  /** The row of a contact: its states by name, an organization that is NULL or not, and its address flag. */
  predicate IsRowOf(row: DiscloseQuery.Contact, c: Contact) {
    && row.states == (set s | s in c.states :: StateName(s))
    && (row.organization == Some(c.organization) || (row.organization == None && c.organization == ""))
    && row.flags.address == DiscloseQuery.OfBool(c.addressDisclosed)
  }

  lemma PersonIsVerified(row: DiscloseQuery.Contact, c: Contact)
    requires IsRowOf(row, c)
    ensures DiscloseUpdater.VerifiedPerson(row) <==>
      (Identified in c.states || Validated in c.states) && Blank(c.organization)
  {
    assert Identified in c.states <==> "identifiedContact" in row.states by {
      assert Identified in c.states ==> StateName(Identified) in row.states;
      if "identifiedContact" in row.states {
        var s :| s in c.states && StateName(s) == "identifiedContact";
        NamedIdentified(s);
      }
    }
    assert Validated in c.states <==> "validatedContact" in row.states by {
      assert Validated in c.states ==> StateName(Validated) in row.states;
      if "validatedContact" in row.states {
        var s :| s in c.states && StateName(s) == "validatedContact";
        NamedValidated(s);
      }
    }
  }

  lemma NamedIdentified(s: State)
    requires StateName(s) == "identifiedContact"
    ensures s == Identified
  {
    assert StateName(s)[0] == 'i';
  }

  lemma NamedValidated(s: State)
    requires StateName(s) == "validatedContact"
    ensures s == Validated
  {
    assert StateName(s)[0] == 'v';
  }

  /** A row the updater has been through with hide-verified is the row of the contact as mojeID's runs have it, which
      meets the rule for hidden addresses. */
  lemma UpdaterKeepsRule(c: Contact, now: nat, row: DiscloseQuery.Contact, s: DiscloseQuery.Settings,
      after: DiscloseQuery.Contact)
    requires IsRowOf(row, c) && s.addr == DiscloseQuery.HideVerified && DiscloseUpdater.AsSet(row, s, after)
    ensures var o := MojeIdContact.HideVerified(c, now);
      o.Changed? && IsRowOf(after, o.after) && AddressGood(o.after)
  {
    PersonIsVerified(row, c);
    HideVerifiedEffect(c, now);
  }

  /** Other settings leave the rule alone as long as they show addresses or do not touch them. */
  lemma ShowingKeepsRule(c: Contact, row: DiscloseQuery.Contact, s: DiscloseQuery.Settings,
      after: DiscloseQuery.Contact)
    requires IsRowOf(row, c) && AddressGood(c) && s.addr != DiscloseQuery.HideVerified
    requires DiscloseUpdater.AsSet(row, s, after)
    ensures var disclosed := after.flags.address == DiscloseQuery.True;
      && IsRowOf(after, c.(addressDisclosed := disclosed))
      && (s.addr != DiscloseQuery.AddressHide ==> AddressGood(c.(addressDisclosed := disclosed)))
  {
  }
}
