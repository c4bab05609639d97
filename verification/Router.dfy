/** Routing after metadata extraction: the model and tier of a request, its session pin, and
    the fallback chain it is dispatched over. */
module Router {
  import opened Common
  import opened Session
  import opened StableSort
  import H = Health

  /** What the content of one message shows, as given functions: an agent's role, two distinct
      reasoning markers, an image part. */
  datatype Hints = Hints(agentRole: string -> bool, reasoning: string -> bool, image: string -> bool)

  /** The configuration. Lower-casing and the name-based vision test are given as functions. */
  datatype Config = Config(
    simpleModel: string, midModel: string, complexModel: string, reasoningModel: string,
    fallbackChain: seq<string>, aliases: map<string, string>, providerForModel: map<string, string>,
    normal: string -> string, hasVision: string -> bool, hints: Hints)

  datatype Classification = Classification(tier: Tier, score: real, confidence: real)

  /** A request, with what the classifier says of it unless it fails, and whether it declares
      tools or carries a tool call. */
  datatype Request = Request(
    model: string, messages: seq<Message>, classified: Option<Classification>, usesTools: bool)

  datatype Meta = Meta(hasTools: bool, hasAgentRole: bool, wantsReasoning: bool, hasImages: bool)

  predicate Shows(m: Message, role: string, hint: string -> bool) {
    m.role == role && hint(m.content)
  }

  /** Some message of this role shows the hint. */
  predicate AnyShows(msgs: seq<Message>, role: string, hint: string -> bool) {
    exists i | 0 <= i < |msgs| :: Shows(msgs[i], role, hint)
  }

  function Always(): string -> bool {
    (s: string) => true
  }

  /** What is extracted from a request: whether any of its messages shows it. */
  function MetaOf(h: Hints, r: Request): Meta {
    Meta(r.usesTools || AnyShows(r.messages, "tool", Always()), AnyShows(r.messages, "system", h.agentRole),
         AnyShows(r.messages, "user", h.reasoning), AnyShows(r.messages, "user", h.image))
  }

  lemma AnyShowsSnoc(msgs: seq<Message>, m: Message, role: string, hint: string -> bool)
    ensures AnyShows(msgs + [m], role, hint) <==> AnyShows(msgs, role, hint) || Shows(m, role, hint)
  {
    assert forall i | 0 <= i < |msgs| :: (msgs + [m])[i] == msgs[i];
    assert (msgs + [m])[|msgs|] == m;
  }

  /** What a conversation has once shown, it goes on showing. */
  lemma MetaGrows(h: Hints, r: Request, later: Request)
    requires r.messages <= later.messages
    ensures var m, n := MetaOf(h, r), MetaOf(h, later);
            && (m.hasAgentRole ==> n.hasAgentRole) && (m.wantsReasoning ==> n.wantsReasoning)
            && (m.hasImages ==> n.hasImages)
  {
    assert forall i | 0 <= i < |r.messages| :: r.messages[i] == later.messages[i];
  }

  method ExtractMeta(h: Hints, r: Request) returns (m: Meta)
    ensures m == MetaOf(h, r)
  {
    m := Meta(r.usesTools, false, false, false);
    for i := 0 to |r.messages|
      invariant m == MetaOf(h, r.(messages := r.messages[..i]))
    {
      var msg := r.messages[i];
      assert r.messages[..i + 1] == r.messages[..i] + [msg];
      AnyShowsSnoc(r.messages[..i], msg, "tool", Always());
      AnyShowsSnoc(r.messages[..i], msg, "system", h.agentRole);
      AnyShowsSnoc(r.messages[..i], msg, "user", h.reasoning);
      AnyShowsSnoc(r.messages[..i], msg, "user", h.image);
      if msg.role == "system" {
        if h.agentRole(msg.content) {
          m := m.(hasAgentRole := true);
        }
      } else if msg.role == "user" {
        if h.image(msg.content) {
          m := m.(hasImages := true);
        }
        if h.reasoning(msg.content) {
          m := m.(wantsReasoning := true);
        }
      } else if msg.role == "tool" {
        m := m.(hasTools := true);
      }
    }
    assert r.messages[..|r.messages|] == r.messages;
  }

  datatype Decision = Decision(
    model: string, tier: Tier, provider: string, score: real, confidence: real,
    modifiers: seq<string>, fallbackChain: seq<string>)

  /** The request leaves the model to the classifier. */
  predicate Automatic(c: Config, r: Request) {
    c.normal(r.model) in ["", "auto", "smart"]
  }

  /** ... which fails. */
  predicate Unroutable(c: Config, r: Request) {
    Automatic(c, r) && r.classified.None?
  }

  /** What the classifier measured; an explicit model is not measured. */
  function Measured(c: Config, r: Request): (real, real)
    requires !Unroutable(c, r)
  {
    if Automatic(c, r) then (r.classified.value.score, r.classified.value.confidence) else (0.0, 0.0)
  }

  function ProviderFor(c: Config, m: string): string {
    if m in c.providerForModel && c.providerForModel[m] != "" then c.providerForModel[m] else "openai"
  }

  function ModelForTier(c: Config, t: Tier): string {
    match t
    case Simple => c.simpleModel
    case Mid => if c.midModel != "" then c.midModel else c.simpleModel
    case Complex => c.complexModel
    case Reasoning => if c.reasoningModel != "" then c.reasoningModel else c.complexModel
    case _ => c.simpleModel
  }

  function TierForModel(c: Config, m: string): Tier {
    if m == c.simpleModel then Simple
    else if m == c.midModel then Mid
    else if m == c.complexModel then Complex
    else if m == c.reasoningModel then Reasoning
    else Mid
  }

  function ResolveAlias(c: Config, m: string): string {
    if c.normal(m) in c.aliases then c.aliases[c.normal(m)] else m
  }

  function UpgradeTier(c: Config, current: string, have: Tier, want: Tier): string {
    if Rank(have) >= Rank(want) then current else ModelForTier(c, want)
  }

  /** The pick before session pinning, in the steps the router takes. */
  function Requested(c: Config, r: Request): Pin
    requires !Unroutable(c, r)
  {
    if Automatic(c, r) then Pin(ModelForTier(c, r.classified.value.tier), r.classified.value.tier)
    else Pin(ResolveAlias(c, r.model), TierForModel(c, ResolveAlias(c, r.model)))
  }

  function Agentic(c: Config, r: Request, p: Pin): Pin {
    var up := UpgradeTier(c, p.model, p.tier, Complex);
    if (MetaOf(c.hints, r).hasTools || MetaOf(c.hints, r).hasAgentRole) && up != p.model then Pin(up, Complex) else p
  }

  function Reasoned(c: Config, r: Request, p: Pin): Pin {
    if MetaOf(c.hints, r).wantsReasoning && c.reasoningModel != "" then Pin(c.reasoningModel, Reasoning) else p
  }

  predicate Swaps(c: Config, r: Request, p: Pin) {
    MetaOf(c.hints, r).hasImages && !c.hasVision(p.model) && c.hasVision(c.complexModel) && c.complexModel != ""
  }

  function Seen(c: Config, r: Request, p: Pin): Pin {
    if Swaps(c, r, p) then p.(model := c.complexModel) else p
  }

  function Pick(c: Config, r: Request): Pin
    requires !Unroutable(c, r)
  {
    Seen(c, r, Reasoned(c, r, Agentic(c, r, Requested(c, r))))
  }

  function Modifiers(c: Config, r: Request): seq<string>
    requires !Unroutable(c, r)
  {
    var p := Requested(c, r);
    var q := Agentic(c, r, p);
    (if Automatic(c, r) then ["classified"] else [])
    + (if q != p then ["agentic"] else [])
    + (if MetaOf(c.hints, r).wantsReasoning && c.reasoningModel != "" then ["reasoning"] else [])
    + (if Swaps(c, r, Reasoned(c, r, q)) then ["vision_swap"] else [])
  }

  /** The sources of the fallback chain: the configured chain, then the tier ladder. */
  function Sources(c: Config, t: Tier): seq<string> {
    c.fallbackChain + match t
                      case Reasoning => [c.midModel, c.simpleModel]
                      case Complex => [c.midModel, c.simpleModel]
                      case Mid => [c.simpleModel]
                      case _ => []
  }

  /** What the ladder behind the configured chain is: the models configured for the tiers Mid and Simple
      that rank below the request's, the higher first. */
  lemma LadderDescends(c: Config, t: Tier)
    ensures Sources(c, t)
            == c.fallbackChain + (if Rank(Mid) < Rank(t) then [c.midModel] else [])
               + (if Rank(Simple) < Rank(t) then [c.simpleModel] else [])
  {
  }

  /** With four different models, each of the four tiers has its own, and a model asked for by name is
      given the tier it is configured for. */
  lemma TiersHaveTheirModels(c: Config, t: Tier)
    requires t in [Simple, Mid, Complex, Reasoning]
    requires "" !in [c.midModel, c.reasoningModel]
    requires Distinct([c.simpleModel, c.midModel, c.complexModel, c.reasoningModel])
    ensures TierForModel(c, ModelForTier(c, t)) == t
    ensures [c.simpleModel, c.midModel, c.complexModel, c.reasoningModel][Rank(t) - 1] == ModelForTier(c, t)
  {
    var models := [c.simpleModel, c.midModel, c.complexModel, c.reasoningModel];
    assert forall i | 0 <= i < 3 :: models[i] != models[3];
    assert models[0] != models[1] && models[0] != models[2] && models[1] != models[2];
  }

  /** A tier without a model of its own shares that of the next lower one. */
  lemma SharedModels(c: Config)
    ensures c.midModel == "" ==> ModelForTier(c, Mid) == ModelForTier(c, Simple)
    ensures c.reasoningModel == "" ==> ModelForTier(c, Reasoning) == ModelForTier(c, Complex)
  {
  }

  function FirstIndex(s: seq<string>, m: string): nat
    requires m in s
  {
    if s[0] == m then 0 else 1 + FirstIndex(s[1..], m)
  }

  /** out lists the usable sources, each once, by first appearance. */
  ghost predicate ChainOf(out: seq<string>, sources: seq<string>, primary: string) {
    && Distinct(out)
    && (forall m :: m in out <==> m in sources && m != "" && m != primary)
    && (forall i, j | 0 <= i < j < |out| :: FirstIndex(sources, out[i]) < FirstIndex(sources, out[j]))
  }

  lemma {:induction false} FirstIndexIsFirst(s: seq<string>, m: string)
    requires m in s
    ensures FirstIndex(s, m) < |s| && s[FirstIndex(s, m)] == m
    ensures forall i | 0 <= i < FirstIndex(s, m) :: s[i] != m
  {
    if s[0] != m { FirstIndexIsFirst(s[1..], m); }
  }

  lemma {:induction false} FirstIndexExtends(s: seq<string>, x: string, m: string)
    requires m in s
    ensures m in s + [x] && FirstIndex(s + [x], m) == FirstIndex(s, m)
  {
    if s[0] != m {
      FirstIndexExtends(s[1..], x, m);
      assert (s + [x])[1..] == s[1..] + [x];
    }
  }

  lemma ChainSkips(out: seq<string>, sources: seq<string>, primary: string, x: string)
    requires ChainOf(out, sources, primary)
    requires x == "" || x == primary || x in out
    ensures ChainOf(out, sources + [x], primary)
  {
    forall i, j | 0 <= i < j < |out|
      ensures FirstIndex(sources + [x], out[i]) < FirstIndex(sources + [x], out[j])
    {
      FirstIndexExtends(sources, x, out[i]);
      FirstIndexExtends(sources, x, out[j]);
    }
  }

  lemma ChainAdds(out: seq<string>, sources: seq<string>, primary: string, x: string)
    requires ChainOf(out, sources, primary)
    requires x != "" && x != primary && x !in out
    ensures ChainOf(out + [x], sources + [x], primary)
  {
    var o, s := out + [x], sources + [x];
    forall i, j | 0 <= i < j < |o| ensures o[i] != o[j] && FirstIndex(s, o[i]) < FirstIndex(s, o[j]) {
      assert o[i] in out;
      FirstIndexExtends(sources, x, o[i]);
      FirstIndexIsFirst(sources, o[i]);
      FirstIndexIsFirst(s, o[j]);
      if j < |out| {
        assert o[j] in out;
        FirstIndexExtends(sources, x, o[j]);
      } else {
        assert x !in sources;
        assert forall k | 0 <= k < |sources| :: s[k] == sources[k] && sources[k] in sources;
      }
    }
  }

  /** d names the pick, or the pin that the session keeps in its stead, with its provider and
      what was measured. */
  ghost predicate KeepsPin(c: Config, pinning: bool, before: Pins, after: Pins, r: Request, d: Decision)
    requires !Unroutable(c, r)
  {
    var pick, key := Pick(c, r), KeyText(r.messages);
    && d.provider == ProviderFor(c, d.model) && (d.score, d.confidence) == Measured(c, r)
    && if !pinning then Pin(d.model, d.tier) == pick && d.modifiers == Modifiers(c, r) && after == before
       else
         && after == AfterUpgrade(before, key, pick.model, pick.tier)
         && key in after && Pin(d.model, d.tier) == after[key]
         && d.modifiers == Modifiers(c, r)
            + (if key !in before then [] else if Displaces(before, key, pick.tier)
               then ["session_upgraded"] else ["session_pinned"])
  }

  /** d's chain is the usable sources for its model and tier, ordered by health, and with the
      model in front it repeats nothing. */
  ghost predicate Chained(c: Config, ordering: bool, records: H.Records, d: Decision, now: int) {
    && Distinct([d.model] + d.fallbackChain)
    && exists built ::
         ChainOf(built, Sources(c, d.tier), d.model)
         && if !ordering then d.fallbackChain == built
            else StableSorted(d.fallbackChain, built, H.ScoreKey(records, now))
  }

  class Router {
    const cfg: Config
    const session: Session?
    const health: H.Tracker?

    constructor (cfg: Config, session: Session?, health: H.Tracker?)
      ensures this.cfg == cfg && this.session == session && this.health == health
    {
      this.cfg, this.session, this.health := cfg, session, health;
    }

    /** The pins, if there is a session cache. */
    ghost function Pins(): Pins
      reads session
    {
      if session == null then map[] else session.entries
    }

    ghost function Records(): H.Records
      reads health
    {
      if health == null then map[] else health.records
    }

    method BuildChain(primary: string, tier: Tier, now: int) returns (out: seq<string>)
      ensures Distinct([primary] + out)
      ensures exists built :: ChainOf(built, Sources(cfg, tier), primary)
                && if health == null then out == built
                   else StableSorted(out, built, H.ScoreKey(health.records, now))
    {
      var seen := {primary};
      out := [];
      var sources := Sources(cfg, tier);
      for i := 0 to |sources|
        invariant ChainOf(out, sources[..i], primary)
        invariant forall m :: m in seen <==> m == primary || m in out
      {
        var m := sources[i];
        assert sources[..i + 1] == sources[..i] + [m];
        if m == "" || m in seen {
          ChainSkips(out, sources[..i], primary, m);
        } else {
          ChainAdds(out, sources[..i], primary, m);
          seen := seen + {m};
          out := out + [m];
        }
      }
      assert sources[..|sources|] == sources;
      ghost var built := out;
      if health != null {
        out := health.Order(out, now);
        H.OrderKeepsChain(out, built, health.records, now);
        assert primary !in out by {
          assert primary !in built;
          assert primary in out ==> primary in multiset(out);
        }
      }
      DistinctCons(primary, out);
    }

    /** Steps one and two: the requested or classified model, then the modifiers. */
    method PickModel(r: Request)
      returns (ok: bool, primary: string, tier: Tier, modifiers: seq<string>, measured: (real, real))
      ensures ok == !Unroutable(cfg, r)
      ensures ok ==> Pin(primary, tier) == Pick(cfg, r) && modifiers == Modifiers(cfg, r)
      ensures ok ==> measured == Measured(cfg, r)
    {
      modifiers := [];
      measured := (0.0, 0.0);
      var requested := cfg.normal(r.model);
      if requested in ["", "auto", "smart"] {
        if r.classified.None? {
          return false, "", Simple, [], measured;
        }
        tier := r.classified.value.tier;
        measured := (r.classified.value.score, r.classified.value.confidence);
        primary := ModelForTier(cfg, tier);
        modifiers := modifiers + ["classified"];
      } else {
        primary := ResolveAlias(cfg, r.model);
        tier := TierForModel(cfg, primary);
      }
      primary, tier, modifiers := Modify(r, primary, tier, modifiers);
      ok := true;
    }

    /** The agentic, reasoning and vision modifiers. */
    method Modify(r: Request, requested: string, have: Tier, already: seq<string>)
      returns (primary: string, tier: Tier, modifiers: seq<string>)
      ensures var p := Pin(requested, have);
              var q := Agentic(cfg, r, p);
              && Pin(primary, tier) == Seen(cfg, r, Reasoned(cfg, r, q))
              && modifiers == already + (if q != p then ["agentic"] else [])
                 + (if MetaOf(cfg.hints, r).wantsReasoning && cfg.reasoningModel != "" then ["reasoning"] else [])
                 + (if Swaps(cfg, r, Reasoned(cfg, r, q)) then ["vision_swap"] else [])
    {
      var meta := ExtractMeta(cfg.hints, r);
      primary, tier, modifiers := requested, have, already;
      if meta.hasTools || meta.hasAgentRole {
        var up := UpgradeTier(cfg, primary, tier, Complex);
        if up != primary {
          primary := up;
          tier := Complex;
          modifiers := modifiers + ["agentic"];
        }
      }
      if meta.wantsReasoning && cfg.reasoningModel != "" {
        primary := cfg.reasoningModel;
        tier := Reasoning;
        modifiers := modifiers + ["reasoning"];
      }
      if meta.hasImages {
        if !cfg.hasVision(primary) {
          var v := if cfg.hasVision(cfg.complexModel) then cfg.complexModel else "";
          if v != "" {
            primary := v;
            modifiers := modifiers + ["vision_swap"];
          }
        }
      }
    }

    /** No decision, and nothing pinned, if the classifier fails. */
    method Route(r: Request, now: int) returns (d: Option<Decision>)
      modifies session
      ensures d.None? <==> Unroutable(cfg, r)
      ensures d.None? ==> Pins() == old(Pins())
      ensures d.Some? ==>
                && KeepsPin(cfg, session != null, old(Pins()), Pins(), r, d.value)
                && Chained(cfg, health != null, Records(), d.value, now)
    {
      var ok, primary, tier, modifiers, measured := PickModel(r);
      if !ok {
        return None;
      }
      if session != null {
        var final, finalTier, status := session.UpgradeIfHigher(r.messages, primary, tier);
        if status == Pinned || status == Upgraded {
          modifiers := modifiers + [if status == Pinned then "session_pinned" else "session_upgraded"];
          primary := final;
          tier := finalTier;
        }
      }
      var chain := BuildChain(primary, tier, now);
      var provider := "openai";
      if primary in cfg.providerForModel && cfg.providerForModel[primary] != "" {
        provider := cfg.providerForModel[primary];
      }
      return Some(Decision(primary, tier, provider, measured.0, measured.1, modifiers, chain));
    }
  }

  // ---------------------------------------------------------------------------------
  // What the pick means.

  /** The modifiers never lower the rank. An agentic request ends below the complex tier exactly
      if it asked for the complex model under a lower tier and does not go on to a reasoning
      model; one that wants reasoning ends at the top tier if there is a model for it; and one
      with images gets a model that sees them if the complex model does. */
  lemma PickMeans(c: Config, r: Request)
    requires !Unroutable(c, r)
    ensures var asked, pick, meta := Requested(c, r), Pick(c, r), MetaOf(c.hints, r);
            var reasons := meta.wantsReasoning && c.reasoningModel != "";
            && Rank(asked.tier) <= Rank(pick.tier)
            && (meta.hasTools || meta.hasAgentRole ==>
                  (Rank(pick.tier) < Rank(Complex) <==>
                     Rank(asked.tier) < Rank(Complex) && asked.model == c.complexModel && !reasons))
            && (reasons ==> pick.tier == Reasoning)
            && (meta.hasImages && c.complexModel != "" && c.hasVision(c.complexModel) ==> c.hasVision(pick.model))
            && (!meta.hasTools && !meta.hasAgentRole && !reasons && !Swaps(c, r, asked) ==> pick == asked)
  {
  }

  /** What the modifiers reported with a decision say about it. */
  lemma ModifiersTell(c: Config, r: Request)
    requires !Unroutable(c, r)
    ensures var tags, pick, meta := Modifiers(c, r), Pick(c, r), MetaOf(c.hints, r);
            && ("classified" in tags <==> c.normal(r.model) in ["", "auto", "smart"])
            && ("reasoning" in tags <==> meta.wantsReasoning && c.reasoningModel != "")
            && ("agentic" in tags ==> (meta.hasTools || meta.hasAgentRole) && Rank(pick.tier) >= Rank(Complex))
            && ("vision_swap" in tags ==> meta.hasImages && pick.model == c.complexModel && c.hasVision(pick.model))
  {
    assert |"classified"| == 10 && |"agentic"| == 7 && |"reasoning"| == 9 && |"vision_swap"| == 11;
  }

  /** A request that shows nothing gets what it asks for: the model it names, through the aliases, or the
      one configured for the tier it was classified into. */
  lemma PlainPick(c: Config, r: Request)
    requires !Unroutable(c, r) && MetaOf(c.hints, r) == Meta(false, false, false, false)
    ensures var name := c.normal(r.model);
            Pick(c, r).model
            == if name in ["", "auto", "smart"] then ModelForTier(c, r.classified.value.tier)
               else if name in c.aliases then c.aliases[name] else r.model
    ensures Pick(c, r).tier
            == if c.normal(r.model) in ["", "auto", "smart"] then r.classified.value.tier
               else TierForModel(c, Pick(c, r).model)
  {
    PickMeans(c, r);
  }

  /** A request with images to a configuration whose complex model sees them is answered by a
      model that does not see them exactly when the conversation's pin holds, at the rank of
      the pick or above, and its model does not see: the pin undoes the swap. */
  lemma PinCanUndoVision(c: Config, r: Request, pins: Pins)
    requires !Unroutable(c, r) && MetaOf(c.hints, r).hasImages && c.hasVision(c.complexModel) && c.complexModel != ""
    ensures var pick, key := Pick(c, r), KeyText(r.messages);
            !c.hasVision(AfterUpgrade(pins, key, pick.model, pick.tier)[key].model)
            <==> key in pins && Rank(pick.tier) <= Rank(pins[key].tier) && !c.hasVision(pins[key].model)
  {
    PickMeans(c, r);
  }

  /** The requests of a run as the session sees them. */
  function Asks(c: Config, rs: seq<Request>): seq<Ask>
    requires forall i | 0 <= i < |rs| :: !Unroutable(c, rs[i])
  {
    seq(|rs|, i requires 0 <= i < |rs| => Ask(rs[i].messages, Pick(c, rs[i])))
  }

  /** Over any run from an empty session cache: a request with images is answered by a model
      that does not see them exactly if the first request of its conversation with the highest
      rank so far is an earlier one, and was given such a model. */
  lemma VisionUndoneIff(c: Config, rs: seq<Request>, n: nat) returns (f: nat)
    requires n < |rs| && forall i | 0 <= i < |rs| :: !Unroutable(c, rs[i])
    requires MetaOf(c.hints, rs[n]).hasImages && c.hasVision(c.complexModel) && c.complexModel != ""
    ensures FirstBest(Asks(c, rs), n + 1, KeyText(rs[n].messages), f)
    ensures Answer(Asks(c, rs), n) == Pick(c, rs[f])
    ensures !c.hasVision(Answer(Asks(c, rs), n).model) <==> f < n && !c.hasVision(Pick(c, rs[f]).model)
  {
    f := AnswerIsFirstBest(Asks(c, rs), n);
    PickMeans(c, rs[n]);
  }

  /** And it happens to any conversation: once a text turn, the first of its conversation at
      the top rank, was given a reasoning model that does not see, every later turn gets that
      model, images or not. */
  lemma ReasoningUndoesVision(c: Config, rs: seq<Request>, i: nat, n: nat)
    requires i < n < |rs| && forall j | 0 <= j < |rs| :: !Unroutable(c, rs[j])
    requires HasUser(rs[i].messages) && rs[i].messages <= rs[n].messages
    requires MetaOf(c.hints, rs[i]).wantsReasoning && !MetaOf(c.hints, rs[i]).hasImages && c.reasoningModel != ""
    requires forall j | 0 <= j < i && KeyText(rs[j].messages) == KeyText(rs[i].messages) ::
               Rank(Pick(c, rs[j]).tier) < Rank(Reasoning)
    ensures Answer(Asks(c, rs), n) == Pin(c.reasoningModel, Reasoning)
  {
    var asks, more := Asks(c, rs), rs[n].messages[|rs[i].messages|..];
    assert rs[n].messages == rs[i].messages + more;
    KeyIsStable(rs[i].messages, more);
    assert asks[i].pick == Pin(c.reasoningModel, Reasoning);
    var f := AnswerIsFirstBest(asks, n);
    assert Rank(asks[f].pick.tier) == Rank(Reasoning);
    assert f == i;
  }

  /** Such a conversation exists: a question to reason about, and then an image, in a
      configuration that has a model for either. */
  lemma VisionUndoneExample() returns (c: Config, text: Request, image: Request)
    ensures !Unroutable(c, text) && !Unroutable(c, image)
    ensures text.messages <= image.messages
    ensures !MetaOf(c.hints, text).hasImages && MetaOf(c.hints, image).hasImages
    ensures c.hasVision(Pick(c, image).model) && !c.hasVision(Answer(Asks(c, [text, image]), 1).model)
  {
    var hints := Hints(s => false, s => s == "prove this step by step", s => s == "image");
    c := Config("small", "", "sees", "thinks", [], map[], map[], s => s, m => m == "sees", hints);
    text := Request("small", [Message("user", "prove this step by step")], None, false);
    image := text.(messages := text.messages + [Message("user", "image")]);
    assert Shows(text.messages[0], "user", hints.reasoning) && HasUser(text.messages);
    assert Shows(image.messages[1], "user", hints.image);
    MetaGrows(hints, text, image);
    PickMeans(c, image);
    ReasoningUndoesVision(c, [text, image], 0, 1);
  }

  /** A session's decisions, request by request from an empty cache, are the answers of the
      run: what is proved of answers is proved of what the router returns. */
  lemma {:induction false} DecisionsAreAnswers(c: Config, rs: seq<Request>, ds: seq<Decision>, pins: seq<Pins>, n: nat)
    requires |ds| == |rs| && |pins| == |rs| + 1 && n < |rs| && pins[0] == map[]
    requires forall i | 0 <= i < |rs| :: !Unroutable(c, rs[i])
    requires forall i {:trigger ds[i]} | 0 <= i < |rs| :: KeepsPin(c, true, pins[i], pins[i + 1], rs[i], ds[i])
    ensures Pin(ds[n].model, ds[n].tier) == Answer(Asks(c, rs), n)
    ensures pins[n + 1] == PinsAfter(Asks(c, rs), n + 1)
  {
    if n > 0 { DecisionsAreAnswers(c, rs, ds, pins, n - 1); }
    assert KeepsPin(c, true, pins[n], pins[n + 1], rs[n], ds[n]);
    DecisionIsAnswer(c, rs, ds[n], pins[n], pins[n + 1], n);
  }

  lemma DecisionIsAnswer(c: Config, rs: seq<Request>, d: Decision, before: Pins, after: Pins, n: nat)
    requires n < |rs| && forall i | 0 <= i < |rs| :: !Unroutable(c, rs[i])
    requires before == PinsAfter(Asks(c, rs), n) && KeepsPin(c, true, before, after, rs[n], d)
    ensures after == PinsAfter(Asks(c, rs), n + 1) && Pin(d.model, d.tier) == Answer(Asks(c, rs), n)
  {
    assert Asks(c, rs)[n] == Ask(rs[n].messages, Pick(c, rs[n]));
  }
}
