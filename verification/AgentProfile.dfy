/** Agent profiles: the deduplication keys and MergeProfiles
    (internal/model/agent_profile.go:63-200). */
module AgentProfile {
  import opened WorkflowModel
  import opened Sequences
  import opened KeyedMerge

  datatype PluginSource = PluginSource(marketplace: string, plugin: string, githubUrl: string)

  datatype SkillSource = SkillSource(marketplace: string, skill: string, githubUrl: string)

  datatype Header = Header(name: string, value: string)

  datatype MCPConfig = MCPConfig(name: string, kind: string, transport: string, url: string, headers: seq<Header>,
                                 credentials: seq<string>)

  datatype Body = Body(plugins: seq<PluginSource>, skills: seq<SkillSource>, mcps: seq<MCPConfig>)

  function PluginKey(p: PluginSource): string {
    if p.githubUrl != "" then "url:" + p.githubUrl else "plugin:" + p.plugin
  }

  function SkillKey(s: SkillSource): string {
    if s.githubUrl != "" then "url:" + s.githubUrl else "skill:" + s.skill
  }

  function McpKey(m: MCPConfig): string {
    m.name
  }

  lemma PrefixCancels(p: string, a: string, b: string)
    requires p + a == p + b
    ensures a == b
  {
    assert (p + a)[|p|..] == a && (p + b)[|p|..] == b;
  }

  /** Two plugins collide exactly when they have the same URL, or neither has one and they have
      the same name; a URL never collides with a name, and the marketplace plays no part. */
  lemma PluginKeyExactly(p: PluginSource, q: PluginSource)
    ensures PluginKey(p) == PluginKey(q) <==>
      p.githubUrl == q.githubUrl && (p.githubUrl == "" ==> p.plugin == q.plugin)
  {
    if PluginKey(p) == PluginKey(q) {
      assert PluginKey(p)[0] == if p.githubUrl != "" then 'u' else 'p';
      assert PluginKey(q)[0] == if q.githubUrl != "" then 'u' else 'p';
      if p.githubUrl != "" {
        PrefixCancels("url:", p.githubUrl, q.githubUrl);
      } else {
        PrefixCancels("plugin:", p.plugin, q.plugin);
      }
    }
  }

  lemma SkillKeyExactly(p: SkillSource, q: SkillSource)
    ensures SkillKey(p) == SkillKey(q) <==>
      p.githubUrl == q.githubUrl && (p.githubUrl == "" ==> p.skill == q.skill)
  {
    if SkillKey(p) == SkillKey(q) {
      assert SkillKey(p)[0] == if p.githubUrl != "" then 'u' else 's';
      assert SkillKey(q)[0] == if q.githubUrl != "" then 'u' else 's';
      if p.githubUrl != "" {
        PrefixCancels("url:", p.githubUrl, q.githubUrl);
      } else {
        PrefixCancels("skill:", p.skill, q.skill);
      }
    }
  }

  /** Two MCPs collide exactly when they have the same name, whatever else they say. */
  lemma McpKeyExactly(m: MCPConfig, n: MCPConfig)
    ensures McpKey(m) == McpKey(n) <==> m.name == n.name
  {
  }

  /** bodyPlugins, bodySkills, bodyMCPs: a nil profile has empty lists. */
  function OrEmpty(b: Option<Body>): Body {
    match b case None => Body([], [], []) case Some(body) => body
  }

  function Merged(baseline: Body, over: Body): Body {
    Body(Override(PluginKey, baseline.plugins, over.plugins),
         Override(SkillKey, baseline.skills, over.skills),
         Override(McpKey, baseline.mcps, over.mcps))
  }

  method MergeProfiles(baseline: Option<Body>, workflowProfile: Option<Body>) returns (result: Body)
    ensures result == Merged(OrEmpty(baseline), OrEmpty(workflowProfile))
  {
    var plugins := MergeByKey(PluginKey, OrEmpty(baseline).plugins, OrEmpty(workflowProfile).plugins);
    var skills := MergeByKey(SkillKey, OrEmpty(baseline).skills, OrEmpty(workflowProfile).skills);
    var mcps := MergeByKey(McpKey, OrEmpty(baseline).mcps, OrEmpty(workflowProfile).mcps);
    result := Body(plugins, skills, mcps);
  }

  ghost predicate KeyUnique(b: Body) {
    && Distinct(Keys(PluginKey, b.plugins))
    && Distinct(Keys(SkillKey, b.skills))
    && Distinct(Keys(McpKey, b.mcps))
  }

  /** Layering profiles does not depend on how the layers are grouped. */
  lemma MergeAssociative(a: Body, b: Body, c: Body)
    ensures Merged(Merged(a, b), c) == Merged(a, Merged(b, c))
  {
    OverrideAssociative(PluginKey, a.plugins, b.plugins, c.plugins);
    OverrideAssociative(SkillKey, a.skills, b.skills, c.skills);
    OverrideAssociative(McpKey, a.mcps, b.mcps, c.mcps);
  }

  /** Merging the same profile a second time changes nothing. */
  lemma MergeAgain(a: Body, b: Body)
    ensures Merged(Merged(a, b), b) == Merged(a, b)
  {
    OverrideAgain(PluginKey, a.plugins, b.plugins);
    OverrideAgain(SkillKey, a.skills, b.skills);
    OverrideAgain(McpKey, a.mcps, b.mcps);
  }

  /** A nil workflow profile always changes nothing; a nil baseline gives back the workflow
      profile exactly when that has unique keys. */
  lemma NilIdentityExactly(a: Body)
    ensures Merged(a, OrEmpty(None)) == a
    ensures Merged(OrEmpty(None), a) == a <==> KeyUnique(a)
  {
    EmptyBaselineExactly(PluginKey, a.plugins);
    EmptyBaselineExactly(SkillKey, a.skills);
    EmptyBaselineExactly(McpKey, a.mcps);
  }

  lemma MergeUniqueExactly(a: Body, b: Body)
    ensures KeyUnique(Merged(a, b)) <==> KeyUnique(a)
  {
    MergedUniqueExactly(PluginKey, a.plugins, b.plugins);
    MergedUniqueExactly(SkillKey, a.skills, b.skills);
    MergedUniqueExactly(McpKey, a.mcps, b.mcps);
  }
}
