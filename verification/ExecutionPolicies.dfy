/** Delegation: how each agent or skill level narrows the execution policy of the level above it. */
module ExecutionPolicies {
  import opened Text

  datatype PermissionMode = Default | Plan | AcceptEdits | BypassPermissions | DontAsk | Auto | Bubble

  datatype MemoryScope = Local | Project | User {
    function Rank(): nat { if Local? then 0 else if Project? then 1 else 2 }
  }

  datatype IsolationMode = NoIsolation | Worktree | Remote {
    function Rank(): nat { if NoIsolation? then 0 else if Worktree? then 1 else 2 }
  }

  /** `payload` stands for the rest of the definition. */
  datatype Tool = Tool(name: string, aliases: seq<string>, payload: int)

  datatype Skill = Skill(name: string, payload: int)

  datatype Policy = Policy(
    toolPool: seq<Tool>,
    skillPool: seq<Skill>,
    mode: PermissionMode,
    memory: Option<MemoryScope>,
    isolation: IsolationMode)

  datatype Agent = Agent(
    tools: seq<string>,
    disallowedTools: seq<string>,
    skills: seq<string>,
    mode: Option<PermissionMode>,
    memory: Option<MemoryScope>,
    isolation: Option<IsolationMode>)

  datatype Level = AgentLevel(agent: Agent) | SkillLevel(allowedTools: seq<string>)

  // ---- pools ---------------------------------------------------------------------------------------

  predicate MatchesSelector(tool: Tool, selector: string, glob: Glob) {
    if selector == "*" then true
    else if HasPattern(selector)
    then glob(tool.name, selector) || exists k | 0 <= k < |tool.aliases| :: glob(tool.aliases[k], selector)
    else selector == tool.name || selector in tool.aliases
  }

  predicate MatchesAny(tool: Tool, selectors: seq<string>, glob: Glob) {
    exists k | 0 <= k < |selectors| :: MatchesSelector(tool, selectors[k], glob)
  }

  predicate Admits(tool: Tool, allowed: seq<string>, disallowed: seq<string>, glob: Glob) {
    (allowed == [] || MatchesAny(tool, allowed, glob)) && (disallowed == [] || !MatchesAny(tool, disallowed, glob))
  }

  /** Put a tool into a pool sorted by name; a tool of the same name gives way. */
  function Place(pool: seq<Tool>, tool: Tool): seq<Tool> {
    if pool == [] then [tool]
    else if pool[0].name == tool.name then [tool] + pool[1..]
    else if TextLe(tool.name, pool[0].name) then [tool] + pool
    else [pool[0]] + Place(pool[1..], tool)
  }

  /** One tool per name, the last one listed, in name order. */
  function ByName(tools: seq<Tool>): seq<Tool> {
    if tools == [] then [] else Place(ByName(tools[..|tools| - 1]), tools[|tools| - 1])
  }

  /** The tools of a pool that the selectors let through, in the pool's order. */
  function Admitted(pool: seq<Tool>, allowed: seq<string>, disallowed: seq<string>, glob: Glob): seq<Tool> {
    Keep(pool, (tool: Tool) => Admits(tool, allowed, disallowed, glob))
  }

  function NarrowToolPool(pool: seq<Tool>, allowed: seq<string>, disallowed: seq<string>, glob: Glob): seq<Tool> {
    ByName(Admitted(pool, allowed, disallowed, glob))
  }

  function ResolveSkillPool(pool: seq<Skill>, selectors: seq<string>): seq<Skill> {
    if selectors == [] || selectors == ["*"] then pool else Keep(pool, (skill: Skill) => skill.name in selectors)
  }

  /** Strictly increasing names: sorted and without duplicates. */
  ghost predicate NameSorted(pool: seq<Tool>) {
    forall i, j | 0 <= i < j < |pool| :: pool[i].name != pool[j].name && TextLe(pool[i].name, pool[j].name)
  }

  lemma {:induction false} TextLeAntisymmetric(a: string, b: string)
    requires TextLe(a, b) && TextLe(b, a)
    ensures a == b
  {
    if a != "" && b != "" {
      TextLeAntisymmetric(a[1..], b[1..]);
      assert a == [a[0]] + a[1..] && b == [b[0]] + b[1..];
    }
  }

  lemma ConsSorted(first: Tool, rest: seq<Tool>)
    requires NameSorted(rest) && forall t | t in rest :: first.name != t.name && TextLe(first.name, t.name)
    ensures NameSorted([first] + rest)
  {
    hide TextLe;
    var all := [first] + rest;
    forall i, j | 0 <= i < j < |all| ensures all[i].name != all[j].name && TextLe(all[i].name, all[j].name) {
      assert all[j] == rest[j - 1];
      if i > 0 { assert all[i] == rest[i - 1]; }
    }
  }

  lemma TailSorted(pool: seq<Tool>)
    requires NameSorted(pool) && pool != []
    ensures NameSorted(pool[1..]) && forall t | t in pool[1..] :: pool[0].name != t.name && TextLe(pool[0].name, t.name)
  {
    hide TextLe;
    assert forall k | 0 <= k < |pool[1..]| :: pool[1..][k] == pool[k + 1];
  }

  lemma {:induction false} PlaceSorted(pool: seq<Tool>, tool: Tool)
    requires NameSorted(pool)
    ensures NameSorted(Place(pool, tool))
    ensures forall t :: t in Place(pool, tool) <==> t == tool || (t in pool && t.name != tool.name)
  {
    hide TextLe, NameSorted;
    if pool == [] {
      NothingSorted();
      ConsSorted(tool, []);
      assert [tool] + [] == [tool];
    } else {
      var first, rest := pool[0], pool[1..];
      assert pool == [first] + rest;
      TailSorted(pool);
      if first.name == tool.name {
        ConsSorted(tool, rest);
      } else if TextLe(tool.name, first.name) {
        forall t | t in pool ensures TextLe(tool.name, t.name) && t.name != tool.name {
          TextOrder(tool.name, first.name, t.name);
          if t.name == tool.name { TextLeAntisymmetric(tool.name, first.name); }
        }
        ConsSorted(tool, pool);
      } else {
        TextOrder(tool.name, first.name, first.name);
        PlaceSorted(rest, tool);
        ConsSorted(first, Place(rest, tool));
      }
    }
  }

  lemma NothingSorted()
    ensures NameSorted([])
  {
  }

  /** Which tool of a name survives: the last one listed. */
  ghost predicate LastOfName(tools: seq<Tool>, t: Tool) {
    exists k | 0 <= k < |tools| :: tools[k] == t && forall m | k < m < |tools| :: tools[m].name != t.name
  }

  lemma LastOfNameAppend(tools: seq<Tool>, last: Tool, t: Tool)
    ensures LastOfName(tools + [last], t) <==> t == last || (LastOfName(tools, t) && t.name != last.name)
  {
    var all := tools + [last];
    if t == last {
      assert all[|tools|] == t;
    }
    if LastOfName(tools, t) && t.name != last.name {
      var k :| 0 <= k < |tools| && tools[k] == t && forall m | k < m < |tools| :: tools[m].name != t.name;
      assert all[k] == t;
    }
    if LastOfName(all, t) && t != last {
      var k :| 0 <= k < |all| && all[k] == t && forall m | k < m < |all| :: all[m].name != t.name;
      assert tools[k] == t && all[|tools|] == last;
      assert forall m | k < m < |tools| :: all[m] == tools[m];
    }
  }

  lemma {:induction false} ByNameMeaning(tools: seq<Tool>)
    ensures NameSorted(ByName(tools))
    ensures forall t :: t in ByName(tools) <==> LastOfName(tools, t)
  {
    if tools == [] {
    } else {
      var front, last := tools[..|tools| - 1], tools[|tools| - 1];
      assert tools == front + [last];
      ByNameMeaning(front);
      PlaceSorted(ByName(front), last);
      forall t ensures t in ByName(tools) <==> LastOfName(tools, t) {
        LastOfNameAppend(front, last, t);
      }
    }
  }

  ghost predicate DistinctNames(tools: seq<Tool>) {
    forall t, u | t in tools && u in tools && t.name == u.name :: t == u
  }

  lemma LastOfDistinct(tools: seq<Tool>, t: Tool)
    ensures LastOfName(tools, t) ==> t in tools
    ensures DistinctNames(tools) && t in tools ==> LastOfName(tools, t)
  {
    if DistinctNames(tools) && t in tools {
      LastPosition(tools, t);
    }
  }

  lemma {:induction false} LastPosition(tools: seq<Tool>, t: Tool)
    requires DistinctNames(tools) && t in tools
    ensures LastOfName(tools, t)
  {
    var front, last := tools[..|tools| - 1], tools[|tools| - 1];
    assert tools == front + [last];
    LastOfNameAppend(front, last, t);
    if t != last {
      assert last in tools;
      LastPosition(front, t);
    }
  }

  /** A narrowed pool holds, in name order, exactly the last admitted tool of each name: all admitted tools if the
      base names each tool once. */
  lemma NarrowedPoolMeaning(pool: seq<Tool>, allowed: seq<string>, disallowed: seq<string>, glob: Glob)
    ensures var narrowed := NarrowToolPool(pool, allowed, disallowed, glob);
            && NameSorted(narrowed)
            && (forall t :: t in narrowed <==> LastOfName(Admitted(pool, allowed, disallowed, glob), t))
            && (forall t | t in narrowed :: t in pool && Admits(t, allowed, disallowed, glob))
            && (DistinctNames(pool) ==> forall t :: t in narrowed <==>
                t in pool && Admits(t, allowed, disallowed, glob))
  {
    var keep := (tool: Tool) => Admits(tool, allowed, disallowed, glob);
    var kept := Admitted(pool, allowed, disallowed, glob);
    assert kept == Keep(pool, keep);
    hide Admits, Admitted, LastOfName;
    ByNameMeaning(kept);
    forall t ensures t in kept <==> t in pool && Admits(t, allowed, disallowed, glob) {
      KeepMembers(pool, keep, t);
    }
    forall t
      ensures LastOfName(kept, t) ==> t in kept
      ensures DistinctNames(pool) && t in kept ==> LastOfName(kept, t)
    {
      LastOfDistinct(kept, t);
    }
  }

  // ---- scalar narrowing ----------------------------------------------------------------------------

  function NarrowMemoryScope(parent: Option<MemoryScope>, requested: Option<MemoryScope>): Option<MemoryScope> {
    if parent.None? then requested
    else if requested.None? then parent
    else if parent.value.Rank() <= requested.value.Rank() then parent
    else requested
  }

  function NarrowIsolationMode(parent: Option<IsolationMode>, requested: Option<IsolationMode>): IsolationMode {
    var p, r := parent.GetOr(NoIsolation), requested.GetOr(NoIsolation);
    if p.Rank() >= r.Rank() then p else r
  }

  predicate InDefaultGroup(mode: PermissionMode) {
    mode.Default? || mode.Auto? || mode.Plan? || mode.AcceptEdits?
  }

  function NarrowPermissionMode(parent: PermissionMode, requested: Option<PermissionMode>): PermissionMode {
    if requested.None? then parent
    else if parent.BypassPermissions? then requested.value
    else if InDefaultGroup(parent) then (if requested.value.BypassPermissions? then parent else requested.value)
    else if parent.Bubble?
        then (if requested.value.Bubble? || requested.value.DontAsk? then requested.value else parent)
    else DontAsk
  }

  function PermissionRank(mode: PermissionMode): nat {
    if mode.BypassPermissions? then 3 else if InDefaultGroup(mode) then 2 else if mode.Bubble? then 1 else 0
  }

  /** A name answers a selector: any name a star, otherwise by the library for patterns and by equality for the rest. */
  predicate Answers(name: string, selector: string, glob: Glob) {
    if selector == "*" then true else if HasPattern(selector) then glob(name, selector) else name == selector
  }

  /** The tool's name or one of its aliases answers the selector. */
  ghost predicate Selected(tool: Tool, selector: string, glob: Glob) {
    exists name | name in [tool.name] + tool.aliases :: Answers(name, selector, glob)
  }

  lemma SelectedExact(tool: Tool, selector: string, glob: Glob)
    ensures MatchesSelector(tool, selector, glob) <==> Selected(tool, selector, glob)
  {
    hide HasPattern;
    var names := [tool.name] + tool.aliases;
    assert tool.name in names && forall alias | alias in tool.aliases :: alias in names;
    if MatchesSelector(tool, selector, glob) {
      var name := if selector == "*" then tool.name
        else if !HasPattern(selector) then selector
        else if glob(tool.name, selector) then tool.name
        else var k :| 0 <= k < |tool.aliases| && glob(tool.aliases[k], selector); tool.aliases[k];
      assert name in names && Answers(name, selector, glob);
    }
    if name :| name in names && Answers(name, selector, glob) {
      assert name == tool.name || name in tool.aliases;
    }
  }

  /** A tool passes when some allowed selector selects it, or none is given, and no disallowed one does. */
  lemma AdmitsExact(tool: Tool, allowed: seq<string>, disallowed: seq<string>, glob: Glob)
    ensures Admits(tool, allowed, disallowed, glob) <==>
            && (allowed == [] || exists s | s in allowed :: Selected(tool, s, glob))
            && forall s | s in disallowed :: !Selected(tool, s, glob)
  {
    hide MatchesSelector, Selected;
    forall s ensures MatchesSelector(tool, s, glob) <==> Selected(tool, s, glob) {
      SelectedExact(tool, s, glob);
    }
    if s :| s in allowed && Selected(tool, s, glob) {
      var k :| 0 <= k < |allowed| && allowed[k] == s;
      assert MatchesSelector(tool, allowed[k], glob);
    }
    if s :| s in disallowed && Selected(tool, s, glob) {
      var k :| 0 <= k < |disallowed| && disallowed[k] == s;
      assert MatchesSelector(tool, disallowed[k], glob);
    }
  }

  // ---- chains of levels ----------------------------------------------------------------------------

  function ResolveAgent(agent: Agent, parent: Policy, glob: Glob): Policy {
    Policy(
      NarrowToolPool(parent.toolPool, agent.tools, agent.disallowedTools, glob),
      ResolveSkillPool(parent.skillPool, agent.skills),
      NarrowPermissionMode(parent.mode, agent.mode),
      NarrowMemoryScope(parent.memory, agent.memory),
      NarrowIsolationMode(Some(parent.isolation), agent.isolation))
  }

  function ResolveSkill(allowedTools: seq<string>, parent: Policy, glob: Glob): Policy {
    parent.(toolPool := NarrowToolPool(parent.toolPool, allowedTools, [], glob))
  }

  function ResolveLevel(level: Level, parent: Policy, glob: Glob): Policy {
    match level
    case AgentLevel(agent) => ResolveAgent(agent, parent, glob)
    case SkillLevel(allowedTools) => ResolveSkill(allowedTools, parent, glob)
  }

  /** A chain of levels, each resolved against the pools and context of the one above. */
  function ResolveChain(root: Policy, levels: seq<Level>, glob: Glob): Policy {
    if levels == [] then root
    else ResolveLevel(levels[|levels| - 1], ResolveChain(root, levels[..|levels| - 1], glob), glob)
  }

  predicate AdmitsTool(level: Level, tool: Tool, glob: Glob) {
    match level
    case AgentLevel(agent) => Admits(tool, agent.tools, agent.disallowedTools, glob)
    case SkillLevel(allowedTools) => Admits(tool, allowedTools, [], glob)
  }

  predicate AdmitsSkill(level: Level, skill: Skill) {
    level.AgentLevel? && level.agent.skills != [] && level.agent.skills != ["*"] ==> skill.name in level.agent.skills
  }

  ghost predicate AllAdmitTool(levels: seq<Level>, tool: Tool, glob: Glob) {
    forall k | 0 <= k < |levels| :: AdmitsTool(levels[k], tool, glob)
  }

  ghost predicate AllAdmitSkill(levels: seq<Level>, skill: Skill) {
    forall k | 0 <= k < |levels| :: AdmitsSkill(levels[k], skill)
  }

  lemma AllAdmitAppend(levels: seq<Level>, last: Level, tool: Tool, skill: Skill, glob: Glob)
    ensures AllAdmitTool(levels + [last], tool, glob) <==>
        AllAdmitTool(levels, tool, glob) && AdmitsTool(last, tool, glob)
    ensures AllAdmitSkill(levels + [last], skill) <==> AllAdmitSkill(levels, skill) && AdmitsSkill(last, skill)
  {
    hide AdmitsTool, AdmitsSkill;
    var all := levels + [last];
    assert all[|levels|] == last;
    assert forall k | 0 <= k < |levels| :: all[k] == levels[k];
  }

  lemma SortedIsDistinct(pool: seq<Tool>)
    requires NameSorted(pool)
    ensures DistinctNames(pool)
  {
  }

  function AdmittedAt(level: Level, pool: seq<Tool>, glob: Glob): seq<Tool> {
    match level
    case AgentLevel(agent) => Admitted(pool, agent.tools, agent.disallowedTools, glob)
    case SkillLevel(allowedTools) => Admitted(pool, allowedTools, [], glob)
  }

  lemma LevelPools(level: Level, parent: Policy, glob: Glob, tool: Tool, skill: Skill)
    ensures var p := ResolveLevel(level, parent, glob);
            && NameSorted(p.toolPool)
            && (tool in p.toolPool <==> LastOfName(AdmittedAt(level, parent.toolPool, glob), tool))
            && (tool in p.toolPool ==> tool in parent.toolPool && AdmitsTool(level, tool, glob))
            && (DistinctNames(parent.toolPool) && tool in parent.toolPool && AdmitsTool(level, tool, glob) ==>
                tool in p.toolPool)
            && (skill in p.skillPool <==> skill in parent.skillPool && AdmitsSkill(level, skill))
  {
    hide NarrowToolPool, Admitted, Admits, NameSorted, DistinctNames, LastOfName;
    match level
    case AgentLevel(agent) =>
      NarrowedPoolMeaning(parent.toolPool, agent.tools, agent.disallowedTools, glob);
      KeepMembers(parent.skillPool, (s: Skill) => s.name in agent.skills, skill);
    case SkillLevel(allowedTools) =>
      NarrowedPoolMeaning(parent.toolPool, allowedTools, [], glob);
  }

  /** The pools at the end of any chain. A skill is left exactly when the root has it and every level admits it. A tool
      is left exactly when it is the last one of its name among those the first level admits and every further level
      admits it; if the root names each tool once, exactly when the root has it and every level admits it. */
  lemma {:induction false} ChainPools(root: Policy, levels: seq<Level>, glob: Glob, tool: Tool, skill: Skill)
    ensures var p := ResolveChain(root, levels, glob);
            && (levels != [] ==> NameSorted(p.toolPool))
            && (levels == [] ==> p.toolPool == root.toolPool)
            && (levels != [] ==>
                  (tool in p.toolPool <==>
                     && LastOfName(AdmittedAt(levels[0], root.toolPool, glob), tool)
                     && AllAdmitTool(levels[1..], tool, glob)))
            && (tool in p.toolPool ==> tool in root.toolPool && AllAdmitTool(levels, tool, glob))
            && (DistinctNames(root.toolPool) ==>
                  (tool in p.toolPool <==> tool in root.toolPool && AllAdmitTool(levels, tool, glob)))
            && (skill in p.skillPool <==> skill in root.skillPool && AllAdmitSkill(levels, skill))
  {
    hide ResolveLevel, AdmitsTool, AdmitsSkill, AllAdmitTool, AllAdmitSkill, NameSorted, DistinctNames, LastOfName,
         AdmittedAt;
    NoLevels(tool, skill, glob);
    if levels == [] {
    } else {
      var front, last := levels[..|levels| - 1], levels[|levels| - 1];
      var parent := ResolveChain(root, front, glob);
      assert levels == front + [last];
      AllAdmitAppend(front, last, tool, skill, glob);
      ChainPools(root, front, glob, tool, skill);
      LevelPools(last, parent, glob, tool, skill);
      if front == [] {
        assert levels[1..] == [];
      } else {
        SortedIsDistinct(parent.toolPool);
        assert levels[1..] == front[1..] + [last];
        AllAdmitAppend(front[1..], last, tool, skill, glob);
      }
    }
  }

  lemma NoLevels(tool: Tool, skill: Skill, glob: Glob)
    ensures AllAdmitTool([], tool, glob) && AllAdmitSkill([], skill)
  {
  }

  /** What a level asks for on each scale. */
  function ModeRequest(level: Level): Option<PermissionMode> {
    if level.AgentLevel? then level.agent.mode else None
  }

  function MemoryRequest(level: Level): Option<MemoryScope> {
    if level.AgentLevel? then level.agent.memory else None
  }

  function IsolationRequest(level: Level): Option<IsolationMode> {
    if level.AgentLevel? then level.agent.isolation else None
  }

  lemma LevelScalars(level: Level, parent: Policy, glob: Glob)
    ensures var p := ResolveLevel(level, parent, glob);
            && p.mode == NarrowPermissionMode(parent.mode, ModeRequest(level))
            && p.memory == NarrowMemoryScope(parent.memory, MemoryRequest(level))
            && p.isolation == NarrowIsolationMode(Some(parent.isolation), IsolationRequest(level))
  {
    hide NarrowToolPool, ResolveSkillPool;
  }

  /** One step on the permission scale takes the lower of the two ranks. */
  lemma PermissionStep(parent: PermissionMode, requested: Option<PermissionMode>)
    ensures var rank := PermissionRank(NarrowPermissionMode(parent, requested));
            rank == if requested.Some? && PermissionRank(requested.value) <= PermissionRank(parent)
                    then PermissionRank(requested.value) else PermissionRank(parent)
  {
  }

  /** From the most to the least permissive; the four modes of the default group rank alike. */
  lemma RankOrder(mode: PermissionMode)
    requires mode == Default || mode == Auto || mode == Plan || mode == AcceptEdits
    ensures PermissionRank(BypassPermissions) > PermissionRank(mode) > PermissionRank(Bubble) > PermissionRank(DontAsk)
    ensures PermissionRank(mode) == PermissionRank(Default)
  {
  }

  /** The child gets the mode it asks for unless that ranks higher than its parent's, which it gets otherwise. */
  lemma PermissionChoice(parent: PermissionMode, requested: Option<PermissionMode>)
    ensures NarrowPermissionMode(parent, requested) ==
            if requested.Some? && PermissionRank(requested.value) <= PermissionRank(parent) then requested.value
            else parent
  {
  }

  /** The level asks for a mode and gets it. */
  predicate Grants(root: Policy, levels: seq<Level>, k: nat, glob: Glob)
    requires k < |levels|
  {
    ModeRequest(levels[k]).Some?
    && PermissionRank(ModeRequest(levels[k]).value) <= PermissionRank(ResolveChain(root, levels[..k], glob).mode)
  }

  lemma OneMoreMode(root: Policy, levels: seq<Level>, glob: Glob)
    requires levels != []
    ensures var last := |levels| - 1;
            ResolveChain(root, levels, glob).mode ==
            if Grants(root, levels, last, glob) then ModeRequest(levels[last]).value
            else ResolveChain(root, levels[..last], glob).mode
  {
    hide ResolveLevel, ModeRequest, NarrowPermissionMode, PermissionRank;
    var last := |levels| - 1;
    var parent := ResolveChain(root, levels[..last], glob);
    LevelScalars(levels[last], parent, glob);
    PermissionChoice(parent.mode, ModeRequest(levels[last]));
  }

  /** The mode at the end of a chain is the one the last granted level asked for. */
  lemma {:induction false} ChainMode(root: Policy, levels: seq<Level>, glob: Glob, k: nat)
    requires k < |levels| && Grants(root, levels, k, glob)
    requires forall m | k < m < |levels| :: !Grants(root, levels, m, glob)
    ensures Some(ResolveChain(root, levels, glob).mode) == ModeRequest(levels[k])
  {
    var last := |levels| - 1;
    assert Grants(root, levels, k, glob) ==> ModeRequest(levels[k]).Some?;
    OneMoreMode(root, levels, glob);
    hide ResolveChain, ModeRequest;
    if k < last {
      forall m | 0 <= m < last ensures Grants(root, levels[..last], m, glob) <==> Grants(root, levels, m, glob) {
        GrantsInPrefix(root, levels, m, glob);
      }
      hide Grants;
      ChainMode(root, levels[..last], glob, k);
    }
  }

  lemma GrantsInPrefix(root: Policy, levels: seq<Level>, m: nat, glob: Glob)
    requires m < |levels| - 1
    ensures Grants(root, levels[..|levels| - 1], m, glob) <==> Grants(root, levels, m, glob)
  {
    assert levels[..|levels| - 1][..m] == levels[..m];
  }

  /** Without a granted request the root's mode stays. */
  lemma {:induction false} ChainModeStays(root: Policy, levels: seq<Level>, glob: Glob)
    requires forall m | 0 <= m < |levels| :: !Grants(root, levels, m, glob)
    ensures ResolveChain(root, levels, glob).mode == root.mode
  {
    if levels == [] {
    } else {
      var last := |levels| - 1;
      OneMoreMode(root, levels, glob);
      hide ResolveChain, ModeRequest;
      forall m | 0 <= m < last ensures !Grants(root, levels[..last], m, glob) {
        GrantsInPrefix(root, levels, m, glob);
      }
      hide Grants;
      ChainModeStays(root, levels[..last], glob);
    }
  }

  /** The permission rank of any chain is the lowest of the root's and of all that were requested. */
  lemma {:induction false} ChainPermissions(root: Policy, levels: seq<Level>, glob: Glob)
    ensures var rank := PermissionRank(ResolveChain(root, levels, glob).mode);
            && rank <= PermissionRank(root.mode)
            && (forall k | 0 <= k < |levels| :: ModeRequest(levels[k]).Some? ==>
                rank <= PermissionRank(ModeRequest(levels[k]).value))
            && (rank == PermissionRank(root.mode)
                || exists k | 0 <= k < |levels| ::
                     ModeRequest(levels[k]).Some? && rank == PermissionRank(ModeRequest(levels[k]).value))
  {
    hide ResolveLevel, ModeRequest, NarrowPermissionMode, PermissionRank;
    if levels == [] {
    } else {
      var front := levels[..|levels| - 1];
      ChainPermissions(root, front, glob);
      LevelScalars(levels[|front|], ResolveChain(root, front, glob), glob);
      PermissionStep(ResolveChain(root, front, glob).mode, ModeRequest(levels[|front|]));
      assert forall k | 0 <= k < |front| :: front[k] == levels[k];
    }
  }

  /** The isolation of any chain is the strongest of the root's and of all that were requested. */
  lemma {:induction false} ChainIsolation(root: Policy, levels: seq<Level>, glob: Glob)
    ensures var isolation := ResolveChain(root, levels, glob).isolation;
            && isolation.Rank() >= root.isolation.Rank()
            && (forall k | 0 <= k < |levels| ::
                  IsolationRequest(levels[k]).Some? ==> isolation.Rank() >= IsolationRequest(levels[k]).value.Rank())
            && (isolation == root.isolation
                || exists k | 0 <= k < |levels| :: IsolationRequest(levels[k]) == Some(isolation))
  {
    hide ResolveLevel, IsolationRequest;
    if levels == [] {
    } else {
      var front := levels[..|levels| - 1];
      ChainIsolation(root, front, glob);
      LevelScalars(levels[|front|], ResolveChain(root, front, glob), glob);
      assert forall k | 0 <= k < |front| :: front[k] == levels[k];
    }
  }

  /** The memory scope of any chain is the narrowest that the root or any level set, and unset only if none did. */
  lemma {:induction false} ChainMemory(root: Policy, levels: seq<Level>, glob: Glob)
    ensures var memory := ResolveChain(root, levels, glob).memory;
            && (memory.None? <==> root.memory.None? && forall k | 0 <= k < |levels| :: MemoryRequest(levels[k]).None?)
            && (memory.Some? ==>
                  && (root.memory.Some? ==> memory.value.Rank() <= root.memory.value.Rank())
                  && (forall k | 0 <= k < |levels| ::
                        MemoryRequest(levels[k]).Some? ==> memory.value.Rank() <= MemoryRequest(levels[k]).value.Rank())
                  && (memory == root.memory || exists k | 0 <= k < |levels| :: MemoryRequest(levels[k]) == memory))
  {
    hide ResolveLevel, MemoryRequest;
    if levels == [] {
    } else {
      var front := levels[..|levels| - 1];
      ChainMemory(root, front, glob);
      LevelScalars(levels[|front|], ResolveChain(root, front, glob), glob);
      assert forall k | 0 <= k < |front| :: front[k] == levels[k];
    }
  }

  // ---- delegation depth ----------------------------------------------------------------------------

  const DEFAULT_DELEGATION_MAX_DEPTH := 1

  /** `_coerce_non_negative_int` on a value that did or did not read as an integer. */
  function NonNegative(value: Option<int>, default: nat): nat {
    if value.None? then default else if value.value < 0 then 0 else value.value
  }

  /** The depth of an accepted child, or None where the source raises. */
  function EnforceChildDelegation(configuredMax: Option<int>, recordedDepth: Option<int>): (child: Option<nat>)
    ensures child.Some? ==> 1 <= child.value <= NonNegative(configuredMax, DEFAULT_DELEGATION_MAX_DEPTH)
  {
    var current := NonNegative(recordedDepth, 0);
    if current >= NonNegative(configuredMax, DEFAULT_DELEGATION_MAX_DEPTH) then None else Some(current + 1)
  }

  /** Spawn `n` times in a row, each child recording its depth for the next. */
  function Descend(configuredMax: Option<int>, recordedDepth: Option<int>, n: nat): Option<nat>
    decreases n
  {
    if n == 0 then Some(NonNegative(recordedDepth, 0))
    else
      var child := EnforceChildDelegation(configuredMax, recordedDepth);
      if child.None? then None else Descend(configuredMax, Some(child.value), n - 1)
  }

  /** A child is accepted one level deeper while the recorded depth is below the limit. The limit is 1 and the depth 0
      unless they are given, and neither is negative. */
  lemma DelegationExact(configuredMax: Option<int>, recordedDepth: Option<int>)
    ensures var limit := if configuredMax.None? then 1 else if configuredMax.value < 0 then 0 else configuredMax.value;
            var depth := if recordedDepth.None? || recordedDepth.value < 0 then 0 else recordedDepth.value;
            EnforceChildDelegation(configuredMax, recordedDepth) == if depth < limit then Some(depth + 1) else None
  {
  }

  /** A chain of spawns is accepted exactly as far as the configured depth reaches. */
  lemma {:induction false} DepthIsExact(configuredMax: Option<int>, recordedDepth: Option<int>, n: nat)
    ensures var start, limit := NonNegative(recordedDepth, 0), NonNegative(configuredMax, DEFAULT_DELEGATION_MAX_DEPTH);
            Descend(configuredMax, recordedDepth, n) == if n == 0 || start + n <= limit then Some(start + n) else None
    decreases n
  {
    if n == 0 {
    } else {
      var child := EnforceChildDelegation(configuredMax, recordedDepth);
      if child.Some? {
        DepthIsExact(configuredMax, Some(child.value), n - 1);
      }
    }
  }
}
