/**
 * The workspace's own seed and identity lists: their paths are already normal, so the generic
 * seeding and prompt lemmas of `Workspace` apply to `seed_if_empty` and `system_prompt` as
 * written.
 */
module WorkspaceExamples {
  import opened Wrappers
  import opened Paths
  import opened Workspace

  // Normalizing a well-known path changes nothing: one lemma per path.

  lemma ReadmeNormal()
    ensures Normalized(README) == README
  {
    AlreadyNormal(README);
  }

  lemma MemoryNormal()
    ensures Normalized(MEMORY) == MEMORY
  {
    AlreadyNormal(MEMORY);
  }

  lemma IdentityNormal()
    ensures Normalized(IDENTITY) == IDENTITY
  {
    AlreadyNormal(IDENTITY);
  }

  lemma SoulNormal()
    ensures Normalized(SOUL) == SOUL
  {
    AlreadyNormal(SOUL);
  }

  lemma AgentsNormal()
    ensures Normalized(AGENTS) == AGENTS
  {
    AlreadyNormal(AGENTS);
  }

  lemma UserNormal()
    ensures Normalized(USER) == USER
  {
    AlreadyNormal(USER);
  }

  lemma ToolsNormal()
    ensures Normalized(TOOLS) == TOOLS
  {
    AlreadyNormal(TOOLS);
  }

  lemma BootNormal()
    ensures Normalized(BOOT) == BOOT
  {
    AlreadyNormal(BOOT);
  }

  lemma BootstrapNormal()
    ensures Normalized(BOOTSTRAP) == BOOTSTRAP
  {
    AlreadyNormal(BOOTSTRAP);
  }

  lemma HeartbeatNormal()
    ensures Normalized(HEARTBEAT) == HEARTBEAT
  {
    AlreadyNormal(HEARTBEAT);
  }

  /** Keying seeds whose paths are already normal changes nothing. */
  lemma KeyedOfNormal(seeds: seq<(Path, string)>)
    requires forall k :: 0 <= k < |seeds| ==> Normalized(seeds[k].0) == seeds[k].0
    ensures Keyed(seeds) == seeds
  {
  }

  /** The `k`-th seed path is already normal. */
  lemma SeedFileNormal(k: nat)
    requires k < |SEED_FILES|
    ensures Normalized(SEED_FILES[k].0) == SEED_FILES[k].0
  {
    if k == 0 { assert SEED_FILES[k].0 == README; ReadmeNormal(); }
    else if k == 1 { assert SEED_FILES[k].0 == MEMORY; MemoryNormal(); }
    else if k == 2 { assert SEED_FILES[k].0 == IDENTITY; IdentityNormal(); }
    else if k == 3 { assert SEED_FILES[k].0 == SOUL; SoulNormal(); }
    else if k == 4 { assert SEED_FILES[k].0 == AGENTS; AgentsNormal(); }
    else if k == 5 { assert SEED_FILES[k].0 == USER; UserNormal(); }
    else if k == 6 { assert SEED_FILES[k].0 == TOOLS; ToolsNormal(); }
    else if k == 7 { assert SEED_FILES[k].0 == BOOT; BootNormal(); }
    else if k == 8 { assert SEED_FILES[k].0 == BOOTSTRAP; BootstrapNormal(); }
    else { assert SEED_FILES[k].0 == HEARTBEAT; HeartbeatNormal(); }
  }

  /** The `k`-th identity path is already normal. */
  lemma IdentityFileNormal(k: nat)
    requires k < |IDENTITY_FILES|
    ensures Normalized(IDENTITY_FILES[k].0) == IDENTITY_FILES[k].0
  {
    if k == 0 { assert IDENTITY_FILES[k].0 == AGENTS; AgentsNormal(); }
    else if k == 1 { assert IDENTITY_FILES[k].0 == SOUL; SoulNormal(); }
    else if k == 2 { assert IDENTITY_FILES[k].0 == USER; UserNormal(); }
    else { assert IDENTITY_FILES[k].0 == IDENTITY; IdentityNormal(); }
  }

  lemma SeedFilesKeyed()
    ensures Keyed(SEED_FILES) == SEED_FILES
  {
    forall k | 0 <= k < |SEED_FILES| ensures Normalized(SEED_FILES[k].0) == SEED_FILES[k].0 {
      SeedFileNormal(k);
    }
    KeyedOfNormal(SEED_FILES);
  }

  lemma IdentityFilesKeyed()
    ensures Keyed(IDENTITY_FILES) == IDENTITY_FILES
  {
    forall k | 0 <= k < |IDENTITY_FILES| ensures Normalized(IDENTITY_FILES[k].0) == IDENTITY_FILES[k].0 {
      IdentityFileNormal(k);
    }
    KeyedOfNormal(IDENTITY_FILES);
  }

  /** The ten paths `seed_if_empty` tries. */
  lemma SeedFilePaths()
    ensures SeedPaths(SEED_FILES, |SEED_FILES|) == {README, MEMORY, IDENTITY, SOUL, AGENTS, USER, TOOLS, BOOT, BOOTSTRAP, HEARTBEAT}
  {
    FirstSeedPaths();
    assert SeedPaths(SEED_FILES, 6) == {README, MEMORY, IDENTITY, SOUL, AGENTS, USER};
    assert SeedPaths(SEED_FILES, 7) == {README, MEMORY, IDENTITY, SOUL, AGENTS, USER, TOOLS};
    assert SeedPaths(SEED_FILES, 8) == {README, MEMORY, IDENTITY, SOUL, AGENTS, USER, TOOLS, BOOT};
    assert SeedPaths(SEED_FILES, 9) == {README, MEMORY, IDENTITY, SOUL, AGENTS, USER, TOOLS, BOOT, BOOTSTRAP};
  }

  lemma FirstSeedPaths()
    ensures SeedPaths(SEED_FILES, 5) == {README, MEMORY, IDENTITY, SOUL, AGENTS}
  {
    assert SeedPaths(SEED_FILES, 1) == {README};
    assert SeedPaths(SEED_FILES, 2) == {README, MEMORY};
    assert SeedPaths(SEED_FILES, 3) == {README, MEMORY, IDENTITY};
    assert SeedPaths(SEED_FILES, 4) == {README, MEMORY, IDENTITY, SOUL};
  }

  /** The ten seed paths are distinct. */
  lemma TenSeedPaths()
    ensures |{README, MEMORY, IDENTITY, SOUL, AGENTS, USER, TOOLS, BOOT, BOOTSTRAP, HEARTBEAT}| == 10
  {
    var s: set<Path> := {README};
    assert MEMORY !in s; s := s + {MEMORY};
    assert IDENTITY !in s; s := s + {IDENTITY};
    assert SOUL !in s; s := s + {SOUL};
    assert AGENTS !in s; s := s + {AGENTS};
    assert USER !in s; s := s + {USER};
    assert TOOLS !in s; s := s + {TOOLS};
    assert BOOT !in s; s := s + {BOOT};
    assert BOOTSTRAP !in s; s := s + {BOOTSTRAP};
    assert HEARTBEAT !in s; s := s + {HEARTBEAT};
    assert s == {README, MEMORY, IDENTITY, SOUL, AGENTS, USER, TOOLS, BOOT, BOOTSTRAP, HEARTBEAT};
  }

  lemma FreshSeedKeys()
    ensures var (seeded, count) := Seeded(map[], NO_FAULTS, Keyed(SEED_FILES), |SEED_FILES|);
            && seeded.Keys == {README, MEMORY, IDENTITY, SOUL, AGENTS, USER, TOOLS, BOOT, BOOTSTRAP, HEARTBEAT}
            && count == |seeded|
  {
    SeedFilesKeyed();
    SeedFilePaths();
    SeededHealthyCreatesAll(map[], NO_FAULTS, SEED_FILES, |SEED_FILES|);
    SeededCountsCreated(map[], NO_FAULTS, SEED_FILES, |SEED_FILES|);
  }

  /** On an empty workspace with a healthy backend, `seed_if_empty` creates all ten files
      and answers 10. */
  lemma FreshSeedCreatesAll()
    ensures var (seeded, count) := Seeded(map[], NO_FAULTS, Keyed(SEED_FILES), |SEED_FILES|);
            && seeded.Keys == {README, MEMORY, IDENTITY, SOUL, AGENTS, USER, TOOLS, BOOT, BOOTSTRAP, HEARTBEAT}
            && count == |SEED_FILES| == 10
  {
    FreshSeedKeys();
    TenSeedPaths();
  }

  /** Booting twice with a healthy backend: the second `seed_if_empty` answers 0 and changes
      nothing. */
  lemma SecondBootSeedsNothing(docs: Store)
    ensures var once := Seeded(docs, NO_FAULTS, Keyed(SEED_FILES), |SEED_FILES|).0;
            Seeded(once, NO_FAULTS, Keyed(SEED_FILES), |SEED_FILES|) == (once, 0)
  {
    SeedFilesKeyed();
    SeedTwice(docs, NO_FAULTS, SEED_FILES);
  }

  /** `seed_if_empty` does not change what `heartbeat_checklist` answers, as long as reads
      and updates of HEARTBEAT.md succeed. */
  lemma SeedIfEmptyKeepsHeartbeat(docs: Store, faults: Faults)
    requires HEARTBEAT !in faults.readFails && HEARTBEAT !in faults.updateFails
    ensures HeartbeatChecklist(Seeded(docs, faults, Keyed(SEED_FILES), |SEED_FILES|).0, faults)
         == HeartbeatChecklist(docs, faults)
  {
    SeedFilesKeyed();
    HeartbeatNormal();
    SeedingKeepsHeartbeatChecklist(docs, faults, SEED_FILES);
  }

  /** The prompt of `system_prompt` is empty exactly when none of the four identity files and
      neither daily log has content to show. */
  lemma SystemPromptEmptyIff(docs: Store, faults: Faults, today: Date, yesterday: Option<Date>)
    ensures Prompt(docs, faults, Keyed(IDENTITY_FILES), today, yesterday).1 == "" <==>
              && IdentitySections(docs, faults, IDENTITY_FILES, |IDENTITY_FILES|) == []
              && DailySections(docs, faults, today, PromptDates(today, yesterday), 2).1 == []
  {
    IdentityFilesKeyed();
    PromptEmptyIff(docs, faults, IDENTITY_FILES, today, yesterday);
  }
}
