/** The answer cache driven by feedback: a generated answer is only linked to its message;
    a helpful rating promotes it into the exact cache and the semantic index, any other
    event demotes it, and a semantic hit copies an answer under a new exact key. */
module AnswerCache {
  import opened Wrappers
  import Seqs = Sequences

  type Vector = seq<real>

  datatype Link = Link(cacheKey: Option<string>, answer: string, model: string, vector: Option<Vector>, promoted: bool)

  datatype Origin = FromPromotion | FromCopy

  datatype Exact = Exact(answer: string, origin: Origin)

  datatype Semantic = Semantic(vector: Vector, answer: string)

  datatype Stores = Stores(links: map<nat, Link>, exact: map<string, Exact>, index: map<string, seq<Semantic>>)

  datatype Settings = Settings(threshold: real, indexSize: nat)

  // ---------- similarity ----------

  function Dot(a: Vector, b: Vector): real
    requires |a| == |b|
  {
    if a == [] then 0.0 else a[0] * b[0] + Dot(a[1..], b[1..])
  }

  function Similarity(a: Vector, b: Vector): real {
    if |a| != |b| then 0.0 else Dot(a, b)
  }

  /** The earliest usable entry of the highest positive similarity. */
  function BestIndex(entries: seq<Semantic>, question: Vector): (r: Option<nat>)
    ensures r.Some? ==>
      && r.value < |entries| && entries[r.value].answer != ""
      && Similarity(question, entries[r.value].vector) > 0.0
      && (forall j | 0 <= j < |entries| && entries[j].answer != "" ::
            Similarity(question, entries[j].vector) <= Similarity(question, entries[r.value].vector))
      && (forall j | 0 <= j < r.value && entries[j].answer != "" ::
            Similarity(question, entries[j].vector) < Similarity(question, entries[r.value].vector))
    ensures r.None? ==> forall j | 0 <= j < |entries| && entries[j].answer != "" ::
              Similarity(question, entries[j].vector) <= 0.0
  {
    if entries == [] then None
    else
      var n := |entries| - 1;
      var before := BestIndex(entries[..n], question);
      var best := if before.Some? then Similarity(question, entries[before.value].vector) else 0.0;
      if entries[n].answer != "" && Similarity(question, entries[n].vector) > best then Some(n) else before
  }

  function FindSimilar(entries: seq<Semantic>, question: Vector, threshold: real): Option<string> {
    var best := BestIndex(entries, question);
    if best.Some? && Similarity(question, entries[best.value].vector) >= threshold
    then Some(entries[best.value].answer) else None
  }

  // ---------- the operations ----------

  function Entries(s: Stores, model: string): seq<Semantic> {
    if model in s.index then s.index[model] else []
  }

  function SemanticOf(l: Link): Option<Semantic> {
    if l.model != "" && l.vector.Some? && l.vector.value != [] then Some(Semantic(l.vector.value, l.answer)) else None
  }

  function Push(entries: seq<Semantic>, e: Semantic, size: nat): seq<Semantic> {
    var pushed := [e] + entries;
    if |pushed| <= size then pushed else pushed[..size]
  }

  function Remove(entries: seq<Semantic>, e: Semantic): (r: seq<Semantic>)
    ensures forall x :: x in r <==> x in entries && x != e
    ensures |r| <= |entries|
  {
    if entries == [] then []
    else if entries[0] == e then Remove(entries[1..], e)
    else [entries[0]] + Remove(entries[1..], e)
  }

  function WritePending(s: Stores, message: nat, l: Link): Stores {
    s.(links := s.links[message := l.(promoted := false)])
  }

  function Promote(s: Stores, message: nat, settings: Settings): Stores
    requires message in s.links
  {
    var l := s.links[message];
    var exact := if l.cacheKey.Some? then s.exact[l.cacheKey.value := Exact(l.answer, FromPromotion)] else s.exact;
    var index := match SemanticOf(l)
      case Some(e) => s.index[l.model := Push(Entries(s, l.model), e, settings.indexSize)]
      case None => s.index;
    Stores(s.links[message := l.(promoted := true)], exact, index)
  }

  function Demote(s: Stores, message: nat): Stores
    requires message in s.links
  {
    var l := s.links[message];
    var exact := if l.cacheKey.Some? then s.exact - {l.cacheKey.value} else s.exact;
    var index := match SemanticOf(l)
      case Some(e) => s.index[l.model := Remove(Entries(s, l.model), e)]
      case None => s.index;
    Stores(s.links[message := l.(promoted := false)], exact, index)
  }

  function RecordFeedback(s: Stores, message: nat, helpful: bool, settings: Settings): Stores {
    if message !in s.links || s.links[message].answer == "" then s
    else if helpful && !s.links[message].promoted then Promote(s, message, settings)
    else if !helpful && s.links[message].promoted then Demote(s, message)
    else s
  }

  function CopyHit(s: Stores, key: string, answer: string): Stores {
    s.(exact := s.exact[key := Exact(answer, FromCopy)])
  }

  // ---------- runs ----------

  datatype World = World(
    stores: Stores,
    lapsed: map<nat, Link>,           // links as they were when they expired
    found: set<(string, string)>,     // semantic hits read but not yet copied: key and answer
    rated: set<(nat, string)>,        // messages once rated helpful, with their answers
    latest: map<nat, bool>)           // the latest feedback on a linked message

  datatype Event =
    | Generate(message: nat, link: Link)
    | Feedback(message: nat, helpful: bool)
    | Find(key: string, model: string, question: Vector)
    | Copy(key: string, answer: string)
    | Expire(message: nat)
    | Lose(key: string)

  function Empty(): World {
    World(Stores(map[], map[], map[]), map[], {}, {}, map[])
  }

  function Next(w: World, e: Event, settings: Settings): World {
    match e
    case Generate(m, l) =>
      // Message ids are fresh, and only nonempty answers are linked.
      if m in w.stores.links || m in w.lapsed || l.answer == "" then w
      else w.(stores := WritePending(w.stores, m, l))
    case Feedback(m, helpful) =>
      if m !in w.stores.links then w
      else w.(stores := RecordFeedback(w.stores, m, helpful, settings),
              rated := if helpful then w.rated + {(m, w.stores.links[m].answer)} else w.rated,
              latest := w.latest[m := helpful])
    case Find(key, model, question) =>
      var hit := FindSimilar(Entries(w.stores, model), question, settings.threshold);
      if hit.Some? then w.(found := w.found + {(key, hit.value)}) else w
    case Copy(key, answer) =>
      if (key, answer) !in w.found then w
      else w.(stores := CopyHit(w.stores, key, answer), found := w.found - {(key, answer)})
    case Expire(m) =>
      if m !in w.stores.links then w
      else w.(stores := w.stores.(links := w.stores.links - {m}), lapsed := w.lapsed[m := w.stores.links[m]])
    case Lose(key) => w.(stores := w.stores.(exact := w.stores.exact - {key}))
  }

  function Run(w: World, events: seq<Event>, settings: Settings): World
    decreases |events|
  {
    if events == [] then w else Run(Next(w, events[0], settings), events[1..], settings)
  }

  // ---------- invariants ----------

  /** The link of a message, live or as it was when it expired. */
  ghost predicate IsLink(w: World, m: nat, l: Link) {
    (m in w.stores.links && w.stores.links[m] == l) || (m in w.lapsed && w.lapsed[m] == l)
  }

  ghost predicate ExactBacked(w: World, key: string, answer: string) {
    exists m: nat, l :: IsLink(w, m, l) && l.promoted && l.cacheKey == Some(key) && l.answer == answer
  }

  ghost predicate SemanticBacked(w: World, model: string, e: Semantic) {
    exists m: nat, l :: IsLink(w, m, l) && l.promoted && l.model == model && SemanticOf(l) == Some(e)
  }

  ghost predicate OnceHelpful(w: World, answer: string) {
    exists m: nat :: (m, answer) in w.rated
  }

  ghost predicate LinksOk(w: World) {
    && w.stores.links.Keys !! w.lapsed.Keys
    && (forall m | m in w.stores.links ::
          && w.stores.links[m].answer != ""
          && (w.stores.links[m].promoted <==> m in w.latest && w.latest[m]))
    && (forall m: nat, l | IsLink(w, m, l) && l.promoted :: (m, l.answer) in w.rated)
    && (forall m | m in w.latest :: m in w.stores.links || m in w.lapsed)
  }

  ghost predicate ExactOk(w: World) {
    forall key | key in w.stores.exact ::
      && OnceHelpful(w, w.stores.exact[key].answer)
      && (w.stores.exact[key].origin.FromPromotion? ==> ExactBacked(w, key, w.stores.exact[key].answer))
  }

  ghost predicate IndexOk(w: World, size: nat) {
    forall model ::
      && |Entries(w.stores, model)| <= size
      && forall e | e in Entries(w.stores, model) :: SemanticBacked(w, model, e)
  }

  ghost predicate FoundOk(w: World) {
    forall hit | hit in w.found :: OnceHelpful(w, hit.1)
  }

  ghost predicate Inv(w: World, settings: Settings) {
    LinksOk(w) && ExactOk(w) && IndexOk(w, settings.indexSize) && FoundOk(w)
  }

  /** Backing carries over when each promoted link does. */
  lemma {:induction false} BackingKept(w: World, w': World, key: string, answer: string)
    requires ExactBacked(w, key, answer)
    requires forall m: nat, l | IsLink(w, m, l) && l.promoted && l.cacheKey == Some(key)
      && l.answer == answer :: IsLink(w', m, l)
    ensures ExactBacked(w', key, answer)
  {
    var m: nat, l :| IsLink(w, m, l) && l.promoted && l.cacheKey == Some(key) && l.answer == answer;
    assert IsLink(w', m, l);
  }

  lemma {:induction false} SemanticBackingKept(w: World, w': World, model: string, e: Semantic)
    requires SemanticBacked(w, model, e)
    requires forall m: nat, l | IsLink(w, m, l) && l.promoted && l.model == model
      && SemanticOf(l) == Some(e) :: IsLink(w', m, l)
    ensures SemanticBacked(w', model, e)
  {
    var m: nat, l :| IsLink(w, m, l) && l.promoted && l.model == model && SemanticOf(l) == Some(e);
    assert IsLink(w', m, l);
  }

  lemma {:induction false} HelpfulKept(w: World, w': World, answer: string)
    requires OnceHelpful(w, answer) && w.rated <= w'.rated
    ensures OnceHelpful(w', answer)
  {
    var m: nat :| (m, answer) in w.rated;
    assert (m, answer) in w'.rated;
  }

  /** Events that leave every promoted link and every cached answer in place. */
  lemma {:induction false} QuietEvent(w: World, w': World, settings: Settings)
    requires Inv(w, settings) && LinksOk(w') && FoundOk(w') && w.rated <= w'.rated
    requires forall m: nat, l | IsLink(w, m, l) && l.promoted :: IsLink(w', m, l)
    requires w'.stores.index == w.stores.index
    requires forall key | key in w'.stores.exact ::
               (key in w.stores.exact && w'.stores.exact[key] == w.stores.exact[key])
               || (w'.stores.exact[key].origin.FromCopy? && OnceHelpful(w, w'.stores.exact[key].answer))
    ensures Inv(w', settings)
  {
    forall key | key in w'.stores.exact
      ensures OnceHelpful(w', w'.stores.exact[key].answer)
      ensures w'.stores.exact[key].origin.FromPromotion? ==> ExactBacked(w', key, w'.stores.exact[key].answer)
    {
      HelpfulKept(w, w', w'.stores.exact[key].answer);
      if w'.stores.exact[key].origin.FromPromotion? {
        BackingKept(w, w', key, w'.stores.exact[key].answer);
      }
    }
    forall model ensures Entries(w'.stores, model) == Entries(w.stores, model) {}
    forall model, e | e in Entries(w'.stores, model) ensures SemanticBacked(w', model, e) {
      assert e in Entries(w.stores, model);
      SemanticBackingKept(w, w', model, e);
    }
  }

  lemma {:induction false} PromotionKeepsInv(w: World, m: nat, settings: Settings)
    requires Inv(w, settings) && settings.indexSize > 0
    requires m in w.stores.links && !w.stores.links[m].promoted
    ensures Inv(Next(w, Feedback(m, true), settings), settings)
  {
    var w' := Next(w, Feedback(m, true), settings);
    var l := w.stores.links[m].(promoted := true);
    assert IsLink(w', m, l) && (m, l.answer) in w'.rated;
    assert forall n: nat, k | IsLink(w, n, k) && k.promoted :: IsLink(w', n, k);
    forall key | key in w'.stores.exact
      ensures OnceHelpful(w', w'.stores.exact[key].answer)
      ensures w'.stores.exact[key].origin.FromPromotion? ==> ExactBacked(w', key, w'.stores.exact[key].answer)
    {
      if l.cacheKey != Some(key) {
        HelpfulKept(w, w', w.stores.exact[key].answer);
        if w.stores.exact[key].origin.FromPromotion? {
          BackingKept(w, w', key, w.stores.exact[key].answer);
        }
      }
    }
    forall model, e | e in Entries(w'.stores, model) ensures SemanticBacked(w', model, e) {
      if e in Entries(w.stores, model) {
        SemanticBackingKept(w, w', model, e);
      } else {
        assert l.model == model && SemanticOf(l) == Some(e);
      }
    }
    forall model ensures |Entries(w'.stores, model)| <= settings.indexSize {
      assert |Entries(w.stores, model)| <= settings.indexSize;
    }
    forall hit | hit in w'.found ensures OnceHelpful(w', hit.1) {
      HelpfulKept(w, w', hit.1);
    }
  }

  lemma {:induction false} DemotionKeepsInv(w: World, m: nat, settings: Settings)
    requires Inv(w, settings)
    requires m in w.stores.links && w.stores.links[m].promoted
    ensures Inv(Next(w, Feedback(m, false), settings), settings)
  {
    var w' := Next(w, Feedback(m, false), settings);
    var l := w.stores.links[m];
    assert forall n: nat, k | IsLink(w, n, k) && n != m :: IsLink(w', n, k);
    forall key | key in w'.stores.exact
      ensures OnceHelpful(w', w'.stores.exact[key].answer)
      ensures w'.stores.exact[key].origin.FromPromotion? ==> ExactBacked(w', key, w'.stores.exact[key].answer)
    {
      HelpfulKept(w, w', w.stores.exact[key].answer);
      if w.stores.exact[key].origin.FromPromotion? {
        BackingKept(w, w', key, w.stores.exact[key].answer);
      }
    }
    forall model, e | e in Entries(w'.stores, model) ensures SemanticBacked(w', model, e) {
      assert e in Entries(w.stores, model);
      SemanticBackingKept(w, w', model, e);
    }
    forall model ensures |Entries(w'.stores, model)| <= settings.indexSize {
      assert |Entries(w.stores, model)| <= settings.indexSize;
    }
  }

  lemma {:induction false} BackedAnswerWasHelpful(w: World, model: string, e: Semantic)
    requires LinksOk(w) && SemanticBacked(w, model, e)
    ensures OnceHelpful(w, e.answer)
  {
    var m: nat, l :| IsLink(w, m, l) && l.promoted && l.model == model && SemanticOf(l) == Some(e);
    assert SemanticOf(l).value.answer == l.answer;
    assert (m, l.answer) in w.rated;
  }

  lemma {:induction false} FindKeepsInv(w: World, key: string, model: string, question: Vector, settings: Settings)
    requires Inv(w, settings)
    ensures Inv(Next(w, Find(key, model, question), settings), settings)
  {
    var entries := Entries(w.stores, model);
    var hit := FindSimilar(entries, question, settings.threshold);
    if hit.Some? {
      BackedAnswerWasHelpful(w, model, entries[BestIndex(entries, question).value]);
    }
    QuietEvent(w, Next(w, Find(key, model, question), settings), settings);
  }

  lemma {:induction false} FeedbackKeepsInv(w: World, m: nat, helpful: bool, settings: Settings)
    requires Inv(w, settings) && settings.indexSize > 0
    ensures Inv(Next(w, Feedback(m, helpful), settings), settings)
  {
    var w' := Next(w, Feedback(m, helpful), settings);
    if m in w.stores.links {
      if helpful && !w.stores.links[m].promoted {
        PromotionKeepsInv(w, m, settings);
      } else if !helpful && w.stores.links[m].promoted {
        DemotionKeepsInv(w, m, settings);
      } else {
        forall hit | hit in w'.found ensures OnceHelpful(w', hit.1) { HelpfulKept(w, w', hit.1); }
        QuietEvent(w, w', settings);
      }
    }
  }

  lemma {:induction false} OtherEventKeepsInv(w: World, e: Event, settings: Settings)
    requires Inv(w, settings) && settings.indexSize > 0 && !e.Feedback? && !e.Find?
    ensures Inv(Next(w, e, settings), settings)
  {
    hide FindSimilar;
    hide RecordFeedback;
    hide SemanticBacked;
    hide ExactBacked;
    QuietEvent(w, Next(w, e, settings), settings);
  }

  lemma {:induction false} NextKeepsInv(w: World, e: Event, settings: Settings)
    requires Inv(w, settings) && settings.indexSize > 0
    ensures Inv(Next(w, e, settings), settings)
  {
    hide Inv;
    match e {
      case Feedback(m, helpful) => FeedbackKeepsInv(w, m, helpful, settings);
      case Find(key, model, question) => FindKeepsInv(w, key, model, question, settings);
      case _ => OtherEventKeepsInv(w, e, settings);
    }
  }

  lemma {:induction false} RunKeepsInv(w: World, events: seq<Event>, settings: Settings)
    requires Inv(w, settings) && settings.indexSize > 0
    ensures Inv(Run(w, events, settings), settings)
    decreases |events|
  {
    if events != [] {
      NextKeepsInv(w, events[0], settings);
      RunKeepsInv(Next(w, events[0], settings), events[1..], settings);
    }
  }

  // ---------- what holds over every run ----------

  /** In every reachable state: a live link is promoted exactly when the latest feedback on
      its message was helpful; every semantic entry, and every exact entry written by a
      promotion, has a promoted link (live, or expired while promoted) with its answer and
      its vector or key; every cached answer, copies included, belongs to a message once
      rated helpful; and no index exceeds its bound. */
  lemma {:induction false} CacheMirrorsFeedback(events: seq<Event>, settings: Settings)
    requires settings.indexSize > 0
    ensures var w := Run(Empty(), events, settings);
            && (forall m | m in w.stores.links :: w.stores.links[m].promoted <==> m in w.latest && w.latest[m])
            && (forall model, e | e in Entries(w.stores, model) :: SemanticBacked(w, model, e))
            && (forall model, e | e in Entries(w.stores, model) :: OnceHelpful(w, e.answer))
            && (forall model :: |Entries(w.stores, model)| <= settings.indexSize)
            && (forall key | key in w.stores.exact && w.stores.exact[key].origin.FromPromotion? ::
                  ExactBacked(w, key, w.stores.exact[key].answer))
            && (forall key | key in w.stores.exact :: OnceHelpful(w, w.stores.exact[key].answer))
  {
    RunKeepsInv(Empty(), events, settings);
    var w := Run(Empty(), events, settings);
    forall model, e | e in Entries(w.stores, model) ensures OnceHelpful(w, e.answer) {
      BackedAnswerWasHelpful(w, model, e);
    }
  }

  /** While no link has expired, what backs an entry is a link whose current rating is
      helpful, so a demoted answer is in the index only if another helpful message of the
      same model has the same answer and vector. */
  lemma {:induction false} BackedByCurrentRating(events: seq<Event>, settings: Settings, model: string, e: Semantic)
    requires settings.indexSize > 0
    requires Run(Empty(), events, settings).lapsed == map[]
    requires e in Entries(Run(Empty(), events, settings).stores, model)
    ensures var w := Run(Empty(), events, settings);
            exists m: nat :: m in w.stores.links && m in w.latest && w.latest[m]
                        && w.stores.links[m].model == model && SemanticOf(w.stores.links[m]) == Some(e)
  {
    RunKeepsInv(Empty(), events, settings);
    var w := Run(Empty(), events, settings);
    assert SemanticBacked(w, model, e);
    var m: nat, l :| IsLink(w, m, l) && l.promoted && l.model == model && SemanticOf(l) == Some(e);
    assert m in w.stores.links && w.stores.links[m] == l;
  }

  /** A demotion removes the answer under its own key and its entry from the index, and
      nothing else: an exact entry under any other key, a copy for instance, stays. */
  lemma {:induction false} DemotionRemovesOnlyItsOwn(s: Stores, m: nat, settings: Settings)
    requires m in s.links && s.links[m].answer != "" && s.links[m].promoted
    ensures var s' := RecordFeedback(s, m, false, settings);
            && (forall key :: key in s'.exact <==> key in s.exact && s.links[m].cacheKey != Some(key))
            && (forall key | key in s'.exact :: s'.exact[key] == s.exact[key])
            && (forall model, e :: e in Entries(s', model) <==>
                  e in Entries(s, model) && !(model == s.links[m].model && SemanticOf(s.links[m]) == Some(e)))
  {
    var s', semantic := RecordFeedback(s, m, false, settings), SemanticOf(s.links[m]);
    assert s' == Demote(s, m);
    forall model ensures Entries(s', model) == if semantic.Some? && model == s.links[m].model
                                               then Remove(Entries(s, model), semantic.value) else Entries(s, model) {}
  }

  /** So a copied answer outlives its demotion. */
  lemma {:induction false} CopySurvivesDemotion(settings: Settings, answer: string)
    requires settings.indexSize > 0 && settings.threshold <= 1.0 && answer != ""
    ensures var l := Link(Some("first"), answer, "model", Some([1.0]), false);
            var w := Run(Empty(), [Generate(0, l), Feedback(0, true), Find("second", "model", [1.0]),
                                   Copy("second", answer), Feedback(0, false)], settings);
            && 0 in w.stores.links && !w.stores.links[0].promoted
            && "first" !in w.stores.exact
            && "second" in w.stores.exact && w.stores.exact["second"].answer == answer
  {
    var l := Link(Some("first"), answer, "model", Some([1.0]), false);
    var w1 := Next(Empty(), Generate(0, l), settings);
    var w2 := Next(w1, Feedback(0, true), settings);
    assert Entries(w2.stores, "model") == [Semantic([1.0], answer)];
    assert Similarity([1.0], [1.0]) == 1.0 by {
      var v: Vector := [1.0];
      assert v[1..] == [];
    }
    var w3 := Next(w2, Find("second", "model", [1.0]), settings);
    assert w3.found == {("second", answer)};
    var w4 := Next(w3, Copy("second", answer), settings);
    var w5 := Next(w4, Feedback(0, false), settings);
    assert Run(w5, [], settings) == w5;
    assert Run(w4, [Feedback(0, false)], settings) == w5;
    assert Run(w3, [Copy("second", answer), Feedback(0, false)], settings) == w5;
    assert Run(w2, [Find("second", "model", [1.0]), Copy("second", answer), Feedback(0, false)], settings) == w5;
    assert Run(w1, [Feedback(0, true), Find("second", "model", [1.0]), Copy("second", answer), Feedback(0, false)], settings) == w5;
  }

  // ---------- when promoted answers stay cached ----------

  predicate PromotedUnder(s: Stores, m: nat, key: string) {
    m in s.links && s.links[m].promoted && s.links[m].cacheKey == Some(key)
  }

  /** A promoted live link is cached under its key. */
  ghost predicate PromotedCached(w: World) {
    forall m, key :: PromotedUnder(w.stores, m, key) ==> key in w.stores.exact
  }

  /** The message whose promoted answer an event demotes. */
  predicate Demotes(w: World, e: Event) {
    e.Feedback? && !e.helpful && e.message in w.stores.links
    && w.stores.links[e.message].promoted && w.stores.links[e.message].answer != ""
  }

  /** The demotion of an answer under whose key another one is promoted, or the loss of the entry
      of a promoted answer. */
  ghost predicate Takes(w: World, e: Event) {
    if e.Lose? then exists m :: PromotedUnder(w.stores, m, e.key)
    else Demotes(w, e) && exists m, key ::
      m != e.message && PromotedUnder(w.stores, m, key) && w.stores.links[e.message].cacheKey == Some(key)
  }

  /** As long as all promoted answers are cached, an event leaves one uncached exactly if it takes
      its entry. */
  lemma {:induction false} PromotedCachedIff(w: World, e: Event, settings: Settings)
    requires PromotedCached(w)
    ensures PromotedCached(Next(w, e, settings)) <==> !Takes(w, e)
  {
    hide FindSimilar;
    hide Push;
    hide Remove;
    var w' := Next(w, e, settings);
    if Takes(w, e) {
      var m, key :| PromotedUnder(w.stores, m, key) && (if e.Lose? then key == e.key
                    else m != e.message && w.stores.links[e.message].cacheKey == Some(key));
      assert PromotedUnder(w'.stores, m, key) && key !in w'.stores.exact;
    } else {
      forall m, key | PromotedUnder(w'.stores, m, key) ensures key in w'.stores.exact {
        assert PromotedUnder(w.stores, m, key) || (e.Feedback? && e.helpful && m == e.message);
      }
    }
  }

  ghost predicate AnyTaken(w: World, events: seq<Event>, settings: Settings)
    decreases |events|
  {
    events != [] && (Takes(w, events[0]) || AnyTaken(Next(w, events[0], settings), events[1..], settings))
  }

  /** So all promoted answers are cached at every point of a run exactly if none of its events
      takes an entry. */
  lemma {:induction false} AlwaysCachedIff(w: World, events: seq<Event>, settings: Settings)
    requires PromotedCached(w)
    ensures (forall k | 0 <= k <= |events| :: PromotedCached(Run(w, events[..k], settings)))
            <==> !AnyTaken(w, events, settings)
    decreases |events|
  {
    hide PromotedCached;
    hide Takes;
    hide Next;
    if events == [] {
      assert events[..0] == [];
    } else {
      var w', rest := Next(w, events[0], settings), events[1..];
      forall k | 0 < k <= |events| ensures Run(w, events[..k], settings) == Run(w', rest[..k - 1], settings) {
        assert events[..k][0] == events[0] && events[..k][1..] == rest[..k - 1];
      }
      assert events[..0] == [] && Run(w, [], settings) == w;
      assert rest[..0] == [] && Run(w', [], settings) == w';
      PromotedCachedIff(w, events[0], settings);
      if !Takes(w, events[0]) {
        AlwaysCachedIff(w', rest, settings);
        if AnyTaken(w', rest, settings) {
          var k :| 0 <= k <= |rest| && !PromotedCached(Run(w', rest[..k], settings));
          assert Run(w, events[..k + 1], settings) == Run(w', rest[..k + 1 - 1], settings);
        }
      } else {
        assert Run(w, events[..1], settings) == Run(w', rest[..0], settings);
      }
    }
  }

  /** No two live links have one key. */
  ghost predicate OwnKeys(w: World) {
    forall m, n | m in w.stores.links && n in w.stores.links && m != n && w.stores.links[m].cacheKey.Some? ::
      w.stores.links[m].cacheKey != w.stores.links[n].cacheKey
  }

  /** Every answer is generated under a key that no live link has, and no entry is lost. */
  ghost predicate Undamaged(w: World, events: seq<Event>, settings: Settings)
    decreases |events|
  {
    events != [] ==>
      && !events[0].Lose?
      && (events[0].Generate? && events[0].link.cacheKey.Some? ==>
            forall m | m in w.stores.links :: w.stores.links[m].cacheKey != events[0].link.cacheKey)
      && Undamaged(Next(w, events[0], settings), events[1..], settings)
  }

  lemma {:induction false} NothingTaken(w: World, events: seq<Event>, settings: Settings)
    requires OwnKeys(w) && Undamaged(w, events, settings)
    ensures !AnyTaken(w, events, settings)
    decreases |events|
  {
    if events != [] {
      OwnKeysKept(w, events[0], settings);
      NothingTaken(Next(w, events[0], settings), events[1..], settings);
    }
  }

  lemma {:induction false} OwnKeysKept(w: World, e: Event, settings: Settings)
    requires OwnKeys(w)
    requires e.Generate? && e.link.cacheKey.Some? ==> forall m | m in w.stores.links :: w.stores.links[m].cacheKey != e.link.cacheKey
    ensures OwnKeys(Next(w, e, settings))
  {
    hide FindSimilar;
    hide Push;
    hide Remove;
    var w' := Next(w, e, settings);
    assert forall m | m in w'.stores.links && !(e.Generate? && m == e.message) ::
      m in w.stores.links && w'.stores.links[m].cacheKey == w.stores.links[m].cacheKey;
  }

  /** In particular if every answer has a key of its own and nothing is lost. */
  lemma {:induction false} PromotedStaysCached(w: World, events: seq<Event>, settings: Settings)
    requires OwnKeys(w) && PromotedCached(w) && Undamaged(w, events, settings)
    ensures PromotedCached(Run(w, events, settings))
  {
    NothingTaken(w, events, settings);
    AlwaysCachedIff(w, events, settings);
    Seqs.Whole(events);
  }

  /** Of any two promoted answers under one key, in any state, the demotion of either takes the
      entry of the other away. */
  lemma {:induction false} DemotionTakesSharedEntry(w: World, m: nat, n: nat, key: string, settings: Settings)
    requires m != n && PromotedUnder(w.stores, m, key) && PromotedUnder(w.stores, n, key)
    requires w.stores.links[m].answer != ""
    ensures var w' := Next(w, Feedback(m, false), settings);
            PromotedUnder(w'.stores, n, key) && key !in w'.stores.exact
  {
    hide Remove;
  }

  /** And any two answers generated under one key come to this. */
  lemma {:induction false} SharedKeyIsLost(m: nat, l: Link, n: nat, k: Link, key: string, settings: Settings)
    requires m != n && l.cacheKey == k.cacheKey == Some(key) && l.answer != "" && k.answer != ""
    ensures var w := Run(Empty(), [Generate(m, l), Generate(n, k), Feedback(m, true), Feedback(n, true), Feedback(m, false)], settings);
            PromotedUnder(w.stores, n, key) && key !in w.stores.exact
  {
    hide Push;
    hide Remove;
    var w1 := Next(Empty(), Generate(m, l), settings);
    var w2 := Next(w1, Generate(n, k), settings);
    var w3 := Next(w2, Feedback(m, true), settings);
    var w4 := Next(w3, Feedback(n, true), settings);
    var w5 := Next(w4, Feedback(m, false), settings);
    assert PromotedUnder(w4.stores, m, key) && PromotedUnder(w4.stores, n, key) && w4.stores.links[m].answer == l.answer;
    DemotionTakesSharedEntry(w4, m, n, key, settings);
    hide Next;
    assert Run(w5, [], settings) == w5;
    assert Run(w4, [Feedback(m, false)], settings) == w5;
    assert Run(w3, [Feedback(n, true), Feedback(m, false)], settings) == w5;
    assert Run(w2, [Feedback(m, true), Feedback(n, true), Feedback(m, false)], settings) == w5;
    assert Run(w1, [Generate(n, k), Feedback(m, true), Feedback(n, true), Feedback(m, false)], settings) == w5;
  }

  // ---------- the cache as an object ----------

  /** The loop that rebuilds a list without one item. */
  method AllBut(entries: seq<Semantic>, e: Semantic) returns (kept: seq<Semantic>)
    ensures kept == Remove(entries, e)
  {
    kept := [];
    Seqs.Whole(entries);
    for i := 0 to |entries|
      invariant kept + Remove(entries[i..], e) == Remove(entries, e)
    {
      Seqs.DropStep(entries, i);
      if entries[i] != e {
        Seqs.Assoc(kept, [entries[i]], Remove(entries[i + 1..], e));
        kept := kept + [entries[i]];
      }
    }
    Seqs.Units(kept);
  }

  class AnswerStore {
    const settings: Settings
    var links: map<nat, Link>
    var exact: map<string, Exact>
    var index: map<string, seq<Semantic>>

    function Value(): Stores
      reads this
    {
      Stores(links, exact, index)
    }

    constructor (settings: Settings)
      ensures this.settings == settings && Value() == Empty().stores
    {
      this.settings := settings;
      links, exact, index := map[], map[], map[];
    }

    method WritePendingAnswer(message: Option<nat>, link: Link)
      modifies this`links
      ensures Value() == if message.Some? then WritePending(old(Value()), message.value, link) else old(Value())
    {
      if message == None {
        return;
      }
      links := links[message.value := link.(promoted := false)];
    }

    method PushBounded(model: string, e: Semantic)
      modifies this`index
      ensures index == old(index)[model := Push(Entries(old(Value()), model), e, settings.indexSize)]
    {
      var pushed := [e] + if model in index then index[model] else [];
      if |pushed| > settings.indexSize {
        pushed := pushed[..settings.indexSize];
      }
      index := index[model := pushed];
    }

    method RemoveItem(model: string, e: Semantic)
      modifies this`index
      ensures index == old(index)[model := Remove(Entries(old(Value()), model), e)]
    {
      var entries := if model in index then index[model] else [];
      var kept := AllBut(entries, e);
      index := index[model := kept];
    }

    method RecordAnswerFeedback(message: nat, helpful: bool)
      modifies this
      ensures Value() == RecordFeedback(old(Value()), message, helpful, settings)
    {
      if message !in links || links[message].answer == "" {
        return;
      }
      var entry := links[message];
      var semantic := SemanticOf(entry);
      if helpful && !entry.promoted {
        if entry.cacheKey.Some? {
          exact := exact[entry.cacheKey.value := Exact(entry.answer, FromPromotion)];
        }
        if semantic.Some? {
          PushBounded(entry.model, semantic.value);
        }
        links := links[message := entry.(promoted := true)];
      } else if !helpful && entry.promoted {
        if entry.cacheKey.Some? {
          exact := exact - {entry.cacheKey.value};
        }
        if semantic.Some? {
          RemoveItem(entry.model, semantic.value);
        }
        links := links[message := entry.(promoted := false)];
      }
    }

    /** The scan over the index keeps the best score so far. */
    method FindSimilarAnswer(model: string, question: Vector) returns (answer: Option<string>)
      ensures answer == FindSimilar(Entries(Value(), model), question, settings.threshold)
    {
      var entries := if model in index then index[model] else [];
      var bestAnswer: Option<string>, bestScore := None, 0.0;
      for i := 0 to |entries|
        invariant var best := BestIndex(entries[..i], question);
                  if best.None? then bestAnswer == None && bestScore == 0.0
                  else bestAnswer == Some(entries[best.value].answer)
                       && bestScore == Similarity(question, entries[best.value].vector)
      {
        assert entries[..i + 1][..i] == entries[..i];
        if entries[i].answer != "" {
          var score := Similarity(question, entries[i].vector);
          if score > bestScore {
            bestScore, bestAnswer := score, Some(entries[i].answer);
          }
        }
      }
      assert entries[..|entries|] == entries;
      answer := if bestScore >= settings.threshold then bestAnswer else None;
    }
  }
}
