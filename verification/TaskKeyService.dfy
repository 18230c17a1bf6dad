/** Key allocation as it is coded: rows read and written inside one locked transaction. */
module TaskKeyService {
  import opened Listing
  import opened TaskPrefix
  import opened TaskKeys
  import Text

  class Service {
    var projects: map<string, Project>
    var projectCounters: map<string, nat>
    var projectAllocations: map<Slot, Allocation>
    var personalCounters: map<string, nat>
    var personalAllocations: map<Slot, Allocation>

    constructor ()
      ensures Rows() == Keys(map[], Ledger(map[], map[]), Ledger(map[], map[]))
    {
      projects, projectCounters, projectAllocations, personalCounters, personalAllocations :=
        map[], map[], map[], map[], map[];
    }

    function Rows(): Keys
      reads this
    {
      Keys(projects, Ledger(projectCounters, projectAllocations), Ledger(personalCounters, personalAllocations))
    }

    method BackfillTaskPrefix(p: string) returns (prefix: Option<string>)
      requires p in projects
      modifies this`projects
      ensures Rows() == old(WithPrefix(Rows(), p))
      ensures prefix == if old(BackfillOf(Rows(), p)).Prefix? then Some(old(BackfillOf(Rows(), p)).value) else None
    {
      var project := projects[p];
      if project.prefix.Some? {
        return project.prefix;
      }
      var assignedPrefixes := TakenPrefixes(Rows(), project.org);
      var candidates := BuildLegacyTaskPrefixCandidates(project.upper, CodeUnits(p));
      prefix := FirstFree(candidates, assignedPrefixes);
      if prefix.Some? {
        projects := projects[p := project.(prefix := prefix)];
      }
    }

    method EnsureProjectTaskPrefix(org: string, p: string) returns (reply: Reply)
      modifies this`projects
      ensures (Rows(), reply) == old(AfterEnsure(Rows(), org, p))
    {
      if p !in projects || projects[p].org != org {
        return NotFound;
      }
      var prefix := BackfillTaskPrefix(p);
      return if prefix.Some? then Done else NoPrefixLeft;
    }

    method AllocateLocalTaskKey(org: string, p: string, task: string) returns (reply: Reply)
      modifies this`projects, this`projectCounters, this`projectAllocations
      ensures (Rows(), reply) == old(AfterAllocate(Rows(), org, p, task))
    {
      if p !in projects || projects[p].org != org {
        return NotFound;
      }
      if Slot(p, task) in projectAllocations {
        return Key(projectAllocations[Slot(p, task)].key);
      }
      var prefix := BackfillTaskPrefix(p);
      if prefix.None? {
        return NoPrefixLeft;
      }
      var sequenceNumber := if p in projectCounters then projectCounters[p] + 1 else 1;
      projectCounters := projectCounters[p := sequenceNumber];
      var key := prefix.value + "-" + Text.Decimal(sequenceNumber);
      projectAllocations := projectAllocations[Slot(p, task) := Allocation(key, sequenceNumber)];
      return Key(key);
    }

    method AllocatePersonalLocalTaskKey(user: string, task: string) returns (reply: Reply)
      modifies this`personalCounters, this`personalAllocations
      ensures (Rows(), reply) == old(AfterPersonal(Rows(), user, task))
    {
      if Slot(user, task) in personalAllocations {
        return Key(personalAllocations[Slot(user, task)].key);
      }
      var sequenceNumber := if user in personalCounters then personalCounters[user] + 1 else 1;
      personalCounters := personalCounters[user := sequenceNumber];
      var key := "PERS-" + Text.Decimal(sequenceNumber);
      assert "PERS-" == RESERVED_PREFIX + "-";
      personalAllocations := personalAllocations[Slot(user, task) := Allocation(key, sequenceNumber)];
      return Key(key);
    }
  }
}
