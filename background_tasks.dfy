/**
  The background enrichment run of the recipe book (App.tsx, `runBackgroundTasks`): a nutrition
  pass and then an image pass over the fixed recipe list, with the two caches, the two in-flight
  id sets and the session-sticky quota flag as state.

  One run is modelled. What the remote calls return is supplied per recipe position, and the
  liveness bit `isMounted` by the number of awaits that resume before the effect's cleanup sets it
  false (on unmount, or when a dependency of the effect changes, the run's own writes included):
  the cleanup can only run while the run is suspended at an await, and once it has run
  `isMounted` stays false. Each attempt awaits twice (the remote call, then the delay in `finally`).
*/
module BackgroundTasks {
  import opened Types
  import GeminiService

  /** What one run sees of its surroundings. */
  datatype World = World(
    recipes: seq<Recipe>,
    nutritionReplies: seq<Outcome<RecipeNutrition>>,  // what `estimateRecipeNutrition` gives for recipes[i]
    imageReplies: seq<Outcome<string>>,               // what `generateRecipeImage` gives for recipes[i]
    liveAwaits: nat)                                  // awaits that resume with `isMounted` still true
  {
    predicate Valid() {
      |nutritionReplies| == |recipes| && |imageReplies| == |recipes|
    }

    /** `isMounted` as read after `awaited` awaits of the run have resumed. */
    predicate MountedAfter(awaited: nat) {
      awaited <= liveAwaits
    }
  }

  /** The state a run reads and writes. */
  datatype Tasks = Tasks(
    nutritionCache: map<string, RecipeNutrition>,
    generatedImages: map<string, string>,
    processingNutrition: set<string>,
    processingImages: set<string>,
    quotaExceeded: bool)

  /** `!nutritionCache[recipe.id] && !processingNutrition.current.has(recipe.id)`, on the state the run started from. */
  predicate NeedsNutrition(w: World, start: Tasks, i: nat)
    requires i < |w.recipes|
  {
    w.recipes[i].id !in start.nutritionCache && w.recipes[i].id !in start.processingNutrition
  }

  /** `generatedImages[id]` is truthy: present and not the empty string. */
  predicate HasImage(images: map<string, string>, id: string) {
    id in images && images[id] != ""
  }

  /** The negation of the image pass's `continue` condition, on the state the run started from. */
  predicate NeedsImage(w: World, start: Tasks, i: nat)
    requires i < |w.recipes|
  {
    !HasImage(start.generatedImages, w.recipes[i].id) && w.recipes[i].id !in start.processingImages
  }

  /** How far a nutrition pass has got: the live cache and flag, the positions requested so far, the awaits so far. */
  datatype NutritionProgress = NutritionProgress(
    cache: map<string, RecipeNutrition>, quotaExceeded: bool, requested: seq<nat>, awaited: nat)

  datatype ImageProgress = ImageProgress(images: map<string, string>, requested: seq<nat>, awaited: nat)

  /**
    The nutrition loop from position `i` on. The skip test reads the cache and the quota flag the
    run captured at its start (`start`); writes go to the live cache. A quota error sets the flag
    and ends the loop after its `finally`; any other error, and a `null` estimate, only skip.
  */
  function NutritionFrom(w: World, start: Tasks, i: nat, p: NutritionProgress): NutritionProgress
    requires w.Valid() && i <= |w.recipes|
    decreases |w.recipes| - i
  {
    if i == |w.recipes| || !w.MountedAfter(p.awaited) || start.quotaExceeded then p
    else if !NeedsNutrition(w, start, i) then NutritionFrom(w, start, i + 1, p)
    else
      var requested := p.requested + [i];
      match w.nutritionReplies[i]
      case Returned(data) =>
        var cache := if data.Some? && w.MountedAfter(p.awaited + 1)
                     then p.cache[w.recipes[i].id := data.value] else p.cache;
        NutritionFrom(w, start, i + 1, NutritionProgress(cache, p.quotaExceeded, requested, p.awaited + 2))
      case Threw(message) =>
        if message == QuotaExceededMessage then NutritionProgress(p.cache, true, requested, p.awaited + 2)
        else NutritionFrom(w, start, i + 1, NutritionProgress(p.cache, p.quotaExceeded, requested, p.awaited + 2))
  }

  /** The image loop from position `i` on: it stops only when `isMounted` is false and never looks at the quota flag. */
  function ImageFrom(w: World, start: Tasks, i: nat, p: ImageProgress): ImageProgress
    requires w.Valid() && i <= |w.recipes|
    decreases |w.recipes| - i
  {
    if i == |w.recipes| || !w.MountedAfter(p.awaited) then p
    else if !NeedsImage(w, start, i) then ImageFrom(w, start, i + 1, p)
    else
      var reply := w.imageReplies[i];
      var images := if reply.Returned? && reply.value.Some? && reply.value.value != "" && w.MountedAfter(p.awaited + 1)
                    then p.images[w.recipes[i].id := reply.value.value] else p.images;
      ImageFrom(w, start, i + 1, ImageProgress(images, p.requested + [i], p.awaited + 2))
  }

  function NutritionPass(w: World, start: Tasks): NutritionProgress
    requires w.Valid()
  {
    NutritionFrom(w, start, 0, NutritionProgress(start.nutritionCache, start.quotaExceeded, [], 0))
  }

  /** The image pass starts once the nutrition pass is over, `afterAwaits` awaits into the run. */
  function ImagePass(w: World, start: Tasks, afterAwaits: nat): ImageProgress
    requires w.Valid()
  {
    ImageFrom(w, start, 0, ImageProgress(start.generatedImages, [], afterAwaits))
  }

  /** A whole run: the new state and the positions of the recipes requested by each pass, in order. */
  datatype RunResult = RunResult(tasks: Tasks, nutritionRequested: seq<nat>, imageRequested: seq<nat>)

  function Run(w: World, start: Tasks): RunResult
    requires w.Valid()
  {
    var n := NutritionPass(w, start);
    var m := ImagePass(w, start, n.awaited);
    RunResult(start.(nutritionCache := n.cache, quotaExceeded := n.quotaExceeded, generatedImages := m.images),
              n.requested, m.requested)
  }

  /** The component's enrichment state: the two caches, the two in-flight sets and the quota flag. */
  class Enrichment {
    var nutritionCache: map<string, RecipeNutrition>
    var generatedImages: map<string, string>
    var processingNutrition: set<string>
    var processingImages: set<string>
    var quotaExceeded: bool

    function State(): Tasks
      reads this
    {
      Tasks(nutritionCache, generatedImages, processingNutrition, processingImages, quotaExceeded)
    }

    /**
      The initial state: the nutrition cache restored from the stored text (`parse` stands for
      `JSON.parse`; absent or empty text gives an empty cache), everything else empty.
    */
    constructor (saved: Option<string>, parse: string -> map<string, RecipeNutrition>)
      ensures State() == Tasks(if saved.Some? && saved.value != "" then parse(saved.value) else map[],
                               map[], {}, {}, false)
    {
      nutritionCache := if saved.Some? && saved.value != "" then parse(saved.value) else map[];
      generatedImages := map[];
      processingNutrition := {};
      processingImages := {};
      quotaExceeded := false;
    }

    /**
      One run of `runBackgroundTasks`. Returns the positions of the recipes whose nutrition and
      image were requested, in order; the new state is the one `Run` describes. The ghost results
      are the in-flight sets held while each request was outstanding.
    */
    method RunBackgroundTasks(w: World)
      returns (nutritionRequested: seq<nat>, imageRequested: seq<nat>,
               ghost nutritionInFlight: seq<set<string>>, ghost imagesInFlight: seq<set<string>>)
      requires w.Valid()
      modifies this
      ensures RunResult(State(), nutritionRequested, imageRequested) == Run(w, old(State()))
      ensures |nutritionInFlight| == |nutritionRequested|
      ensures forall k :: 0 <= k < |nutritionRequested| ==>
                nutritionRequested[k] < |w.recipes|
                && nutritionInFlight[k] == old(processingNutrition) + {w.recipes[nutritionRequested[k]].id}
      ensures |imagesInFlight| == |imageRequested|
      ensures forall k :: 0 <= k < |imageRequested| ==>
                imageRequested[k] < |w.recipes|
                && imagesInFlight[k] == old(processingImages) + {w.recipes[imageRequested[k]].id}
    {
      ghost var start := State();
      var awaited;
      nutritionRequested, awaited, nutritionInFlight := NutritionLoop(w);
      imageRequested, imagesInFlight := ImageLoop(w, start, awaited);
    }

    /**
      The first loop of the run: nutrition estimates, stopped by unmounting or a quota error.
      `inFlightAtCall[k]` is `processingNutrition` while the `k`th request is outstanding: the set
      the run started with plus that recipe's id, which `finally` removes again.
    */
    method NutritionLoop(w: World) returns (requested: seq<nat>, awaited: nat, ghost inFlightAtCall: seq<set<string>>)
      requires w.Valid()
      modifies this
      ensures var n := NutritionPass(w, old(State()));
        && State() == old(State()).(nutritionCache := n.cache, quotaExceeded := n.quotaExceeded)
        && requested == n.requested && awaited == n.awaited
      ensures |inFlightAtCall| == |requested|
      ensures forall k :: 0 <= k < |requested| ==>
                requested[k] < |w.recipes|
                && inFlightAtCall[k] == old(processingNutrition) + {w.recipes[requested[k]].id}
    {
      ghost var start := State();
      // the closure's constants
      var seen := nutritionCache;
      var quotaAtStart := quotaExceeded;
      awaited := 0;
      requested := [];
      inFlightAtCall := [];
      var i := 0;
      while i < |w.recipes|
        invariant i <= |w.recipes|
        invariant State() == start.(nutritionCache := nutritionCache, quotaExceeded := quotaExceeded)
        invariant |inFlightAtCall| == |requested|
        invariant forall k :: 0 <= k < |requested| ==>
                    requested[k] < |w.recipes|
                    && inFlightAtCall[k] == start.processingNutrition + {w.recipes[requested[k]].id}
        invariant NutritionFrom(w, start, i, NutritionProgress(nutritionCache, quotaExceeded, requested, awaited))
                  == NutritionPass(w, start)
      {
        if !w.MountedAfter(awaited) || quotaAtStart {
          break;
        }
        var recipe := w.recipes[i];
        if recipe.id !in seen && recipe.id !in processingNutrition {
          processingNutrition := processingNutrition + {recipe.id};
          requested := requested + [i];
          inFlightAtCall := inFlightAtCall + [processingNutrition];
          var reply := w.nutritionReplies[i];  // await estimateRecipeNutrition(...)
          awaited := awaited + 1;
          var quotaHit := false;
          match reply {
            case Returned(data) =>
              if data.Some? && w.MountedAfter(awaited) {
                nutritionCache := nutritionCache[recipe.id := data.value];
              }
            case Threw(message) =>
              if message == QuotaExceededMessage {
                quotaExceeded := true;
                quotaHit := true;
              }
          }
          // finally: the delay, then the in-flight mark is dropped
          awaited := awaited + 1;
          processingNutrition := processingNutrition - {recipe.id};
          if quotaHit {
            break;
          }
        }
        i := i + 1;
      }
    }

    /**
      The second loop of the run, `afterAwaits` awaits in: images, stopped only by unmounting. The
      skip test reads the images and in-flight set of `start`, the state the run was started from.
      `inFlightAtCall[k]` is `processingImages` while the `k`th request is outstanding.
    */
    method ImageLoop(w: World, ghost start: Tasks, afterAwaits: nat)
      returns (requested: seq<nat>, ghost inFlightAtCall: seq<set<string>>)
      requires w.Valid()
      requires start.generatedImages == generatedImages && start.processingImages == processingImages
      modifies this
      ensures State() == old(State()).(generatedImages := ImagePass(w, start, afterAwaits).images)
      ensures requested == ImagePass(w, start, afterAwaits).requested
      ensures |inFlightAtCall| == |requested|
      ensures forall k :: 0 <= k < |requested| ==>
                requested[k] < |w.recipes|
                && inFlightAtCall[k] == old(processingImages) + {w.recipes[requested[k]].id}
    {
      ghost var before := State();
      var seen := generatedImages;
      var awaited := afterAwaits;
      requested := [];
      inFlightAtCall := [];
      var i := 0;
      while i < |w.recipes|
        invariant i <= |w.recipes|
        invariant State() == before.(generatedImages := generatedImages)
        invariant |inFlightAtCall| == |requested|
        invariant forall k :: 0 <= k < |requested| ==>
                    requested[k] < |w.recipes|
                    && inFlightAtCall[k] == before.processingImages + {w.recipes[requested[k]].id}
        invariant ImageFrom(w, start, i, ImageProgress(generatedImages, requested, awaited))
                  == ImagePass(w, start, afterAwaits)
      {
        if !w.MountedAfter(awaited) {
          break;
        }
        var recipe := w.recipes[i];
        if (recipe.id in seen && seen[recipe.id] != "") || recipe.id in processingImages {
          i := i + 1;
          continue;
        }
        processingImages := processingImages + {recipe.id};
        requested := requested + [i];
        inFlightAtCall := inFlightAtCall + [processingImages];
        var reply := w.imageReplies[i];  // await generateRecipeImage(...)
        awaited := awaited + 1;
        match reply {
          case Returned(url) =>
            if url.Some? && url.value != "" && w.MountedAfter(awaited) {
              generatedImages := generatedImages[recipe.id := url.value];
            }
          case Threw(_) =>
        }
        // finally: the delay, then the in-flight mark is dropped
        awaited := awaited + 1;
        processingImages := processingImages - {recipe.id};
        i := i + 1;
      }
    }
  }

  // ---------------------------------------------------------------- what a run guarantees

  /** Position `i` holds the reply that signals quota exhaustion. */
  predicate QuotaReplyAt(w: World, i: nat) {
    i < |w.nutritionReplies| && w.nutritionReplies[i] == Threw(QuotaExceededMessage)
  }

  /**
    The nutrition requests: each for a recipe that had no cached estimate and was not in flight
    when the run started, the `k`th issued only after `isMounted` was seen true `2k` awaits into
    the run, in list order, and none at all when the quota flag was set at the start.
  */
  ghost predicate NutritionRequestsOk(w: World, start: Tasks, requested: seq<nat>)
    requires w.Valid()
  {
    && (forall k :: 0 <= k < |requested| ==>
          requested[k] < |w.recipes| && NeedsNutrition(w, start, requested[k]) && w.MountedAfter(2 * k))
    && (forall k1, k2 :: 0 <= k1 < k2 < |requested| ==> requested[k1] < requested[k2])
    && (|requested| > 0 ==> !start.quotaExceeded)
  }

  /** The `k`th nutrition request brought an estimate back while `isMounted` still held. */
  ghost predicate NutritionStored(w: World, requested: seq<nat>, k: int)
    requires w.Valid()
  {
    0 <= k < |requested| && requested[k] < |w.recipes|
      && w.nutritionReplies[requested[k]].Returned? && w.nutritionReplies[requested[k]].value.Some?
      && w.MountedAfter(2 * k + 1)
  }

  /**
    The cache keeps every entry it started with, and every entry it gained holds the estimate that
    some request stored for that id; every stored estimate has an entry.
  */
  ghost predicate NutritionCacheOk(w: World, start: Tasks, cache: map<string, RecipeNutrition>, requested: seq<nat>)
    requires w.Valid()
  {
    && (forall id :: id in start.nutritionCache ==> id in cache && cache[id] == start.nutritionCache[id])
    && (forall id :: id in cache && id !in start.nutritionCache ==>
          exists k :: NutritionStored(w, requested, k) && w.recipes[requested[k]].id == id
                      && cache[id] == w.nutritionReplies[requested[k]].value.value)
    && (forall k :: NutritionStored(w, requested, k) ==> w.recipes[requested[k]].id in cache)
  }

  /** A nutrition pass still going at the top of iteration `i`. */
  ghost predicate NutritionRunning(w: World, start: Tasks, i: nat, p: NutritionProgress)
    requires w.Valid()
  {
    && i <= |w.recipes|
    && p.awaited == 2 * |p.requested| && |p.requested| <= i
    && p.quotaExceeded == start.quotaExceeded
    && NutritionRequestsOk(w, start, p.requested)
    && (forall k :: 0 <= k < |p.requested| ==> p.requested[k] < i && !QuotaReplyAt(w, p.requested[k]))
    && NutritionCacheOk(w, start, p.cache, p.requested)
  }

  /** A finished nutrition pass: only its last request can have hit the quota, and the flag says whether it did. */
  ghost predicate NutritionDone(w: World, start: Tasks, p: NutritionProgress)
    requires w.Valid()
  {
    && p.awaited == 2 * |p.requested| && |p.requested| <= |w.recipes|
    && NutritionRequestsOk(w, start, p.requested)
    && (forall k :: 0 <= k < |p.requested| - 1 ==> !QuotaReplyAt(w, p.requested[k]))
    && (p.quotaExceeded <==>
          start.quotaExceeded || (|p.requested| > 0 && QuotaReplyAt(w, p.requested[|p.requested| - 1])))
    && NutritionCacheOk(w, start, p.cache, p.requested)
  }

  /** One request added at position `i`, its estimate stored or not: the cache bookkeeping still holds. */
  lemma NutritionCacheStep(w: World, start: Tasks, cache: map<string, RecipeNutrition>, requested: seq<nat>,
                           i: nat, newCache: map<string, RecipeNutrition>)
    requires w.Valid() && i < |w.recipes| && NeedsNutrition(w, start, i)
    requires NutritionCacheOk(w, start, cache, requested)
    requires newCache == if NutritionStored(w, requested + [i], |requested|)
                         then cache[w.recipes[i].id := w.nutritionReplies[i].value.value] else cache
    ensures NutritionCacheOk(w, start, newCache, requested + [i])
  {
    var more := requested + [i];
    var id := w.recipes[i].id;
    var stored := NutritionStored(w, more, |requested|);
    forall k | 0 <= k < |requested|
      ensures more[k] == requested[k] && (NutritionStored(w, more, k) <==> NutritionStored(w, requested, k))
    {
    }
    forall x | x in newCache && x !in start.nutritionCache
      ensures exists k :: NutritionStored(w, more, k) && w.recipes[more[k]].id == x
                          && newCache[x] == w.nutritionReplies[more[k]].value.value
    {
      if stored && x == id {
        assert NutritionStored(w, more, |requested|) && w.recipes[more[|requested|]].id == x;
      } else {
        var k :| NutritionStored(w, requested, k) && w.recipes[requested[k]].id == x
                 && cache[x] == w.nutritionReplies[requested[k]].value.value;
        assert NutritionStored(w, more, k);
      }
    }
    forall k | NutritionStored(w, more, k) ensures w.recipes[more[k]].id in newCache {
      if k < |requested| {
        assert NutritionStored(w, requested, k);
      }
    }
  }

  /** Requesting position `i` from a running pass keeps the request bookkeeping. */
  lemma NutritionRequestStep(w: World, start: Tasks, i: nat, p: NutritionProgress)
    requires w.Valid() && NutritionRunning(w, start, i, p)
    requires i < |w.recipes| && w.MountedAfter(p.awaited) && !start.quotaExceeded && NeedsNutrition(w, start, i)
    ensures NutritionRequestsOk(w, start, p.requested + [i])
    ensures forall k :: 0 <= k < |p.requested| ==> (p.requested + [i])[k] == p.requested[k]
  {
    var more := p.requested + [i];
    assert forall k :: 0 <= k < |p.requested| ==> more[k] == p.requested[k];
  }

  /** A quota error on the request at position `i` ends the pass in a finished state. */
  lemma NutritionQuotaStop(w: World, start: Tasks, i: nat, p: NutritionProgress)
    requires w.Valid() && NutritionRunning(w, start, i, p)
    requires i < |w.recipes| && w.MountedAfter(p.awaited) && !start.quotaExceeded && NeedsNutrition(w, start, i)
    requires QuotaReplyAt(w, i)
    ensures NutritionDone(w, start, NutritionProgress(p.cache, true, p.requested + [i], p.awaited + 2))
  {
    var more := p.requested + [i];
    NutritionRequestStep(w, start, i, p);
    assert !NutritionStored(w, more, |p.requested|);
    NutritionCacheStep(w, start, p.cache, p.requested, i, p.cache);
    assert more[|more| - 1] == i;
  }

  /** Any other reply to the request at position `i` leaves the pass running at position `i + 1`. */
  lemma NutritionContinues(w: World, start: Tasks, i: nat, p: NutritionProgress, q: NutritionProgress)
    requires w.Valid() && NutritionRunning(w, start, i, p)
    requires i < |w.recipes| && w.MountedAfter(p.awaited) && !start.quotaExceeded && NeedsNutrition(w, start, i)
    requires !QuotaReplyAt(w, i)
    requires q == NutritionProgress(
               if NutritionStored(w, p.requested + [i], |p.requested|)
               then p.cache[w.recipes[i].id := w.nutritionReplies[i].value.value] else p.cache,
               p.quotaExceeded, p.requested + [i], p.awaited + 2)
    ensures NutritionRunning(w, start, i + 1, q)
  {
    NutritionRequestStep(w, start, i, p);
    NutritionCacheStep(w, start, p.cache, p.requested, i, q.cache);
  }

  lemma {:induction false} NutritionFromDone(w: World, start: Tasks, i: nat, p: NutritionProgress)
    requires w.Valid() && NutritionRunning(w, start, i, p)
    ensures NutritionDone(w, start, NutritionFrom(w, start, i, p))
    decreases |w.recipes| - i
  {
    if i == |w.recipes| || !w.MountedAfter(p.awaited) || start.quotaExceeded {
    } else if !NeedsNutrition(w, start, i) {
      NutritionFromDone(w, start, i + 1, p);
    } else {
      var more := p.requested + [i];
      var reply := w.nutritionReplies[i];
      if reply == Threw(QuotaExceededMessage) {
        assert NutritionFrom(w, start, i, p) == NutritionProgress(p.cache, true, more, p.awaited + 2);
        NutritionQuotaStop(w, start, i, p);
      } else {
        var stored := NutritionStored(w, more, |p.requested|);
        var cache := if stored then p.cache[w.recipes[i].id := reply.value.value] else p.cache;
        var q := NutritionProgress(cache, p.quotaExceeded, more, p.awaited + 2);
        assert NutritionFrom(w, start, i, p) == NutritionFrom(w, start, i + 1, q);
        NutritionContinues(w, start, i, p, q);
        NutritionFromDone(w, start, i + 1, q);
      }
    }
  }

  lemma NutritionPassDone(w: World, start: Tasks)
    requires w.Valid()
    ensures NutritionDone(w, start, NutritionPass(w, start))
  {
    NutritionFromDone(w, start, 0, NutritionProgress(start.nutritionCache, start.quotaExceeded, [], 0));
  }

  /** Every nutrition request of a run is for a recipe that needed one, in list order, while `isMounted` held. */
  lemma NutritionRequestsAreEligible(w: World, start: Tasks)
    requires w.Valid()
    ensures NutritionRequestsOk(w, start, Run(w, start).nutritionRequested)
  {
    NutritionPassDone(w, start);
  }

  /** A run that starts with the quota flag set issues no nutrition request and leaves the cache alone. */
  lemma QuotaAtStartBlocksNutrition(w: World, start: Tasks)
    requires w.Valid() && start.quotaExceeded
    ensures Run(w, start).nutritionRequested == []
    ensures Run(w, start).tasks.nutritionCache == start.nutritionCache
    ensures Run(w, start).tasks.quotaExceeded
  {
  }

  /**
    A quota error ends the nutrition pass: only the last request can have received it, and the
    flag is set after the run exactly when it was set before or that last request received it.
  */
  lemma QuotaErrorEndsNutritionPass(w: World, start: Tasks)
    requires w.Valid()
    ensures var req := Run(w, start).nutritionRequested;
      && (forall k :: 0 <= k < |req| - 1 ==> !QuotaReplyAt(w, req[k]))
      && (Run(w, start).tasks.quotaExceeded <==>
            start.quotaExceeded || (|req| > 0 && QuotaReplyAt(w, req[|req| - 1])))
  {
    NutritionPassDone(w, start);
  }

  /**
    The quota chain end to end: when the reply at position `i` is what the service gives for the
    recipe's own request and the SDK call failed with a message mentioning "429", a request for
    that recipe is the run's last nutrition request and leaves the quota flag set.
  */
  lemma RateLimitEndsNutritionPass(w: World, start: Tasks, i: nat, sdk: string -> GeminiService.Sdk<Option<string>>,
                                   parse: string -> GeminiService.Parse<Option<RecipeNutrition>>,
                                   before: string, after: string)
    requires w.Valid() && i < |w.recipes|
    requires var input := GeminiService.NutritionRequest(w.recipes[i].title, w.recipes[i].ingredients,
                                                         Some(w.recipes[i].steps));
      && sdk(GeminiService.NutritionPrompt(input)) == GeminiService.Failed(Some(before + "429" + after))
      && w.nutritionReplies[i] == GeminiService.EstimateRecipeNutrition(input, sdk, parse)
    ensures var req := Run(w, start).nutritionRequested;
      i in req ==> req[|req| - 1] == i && Run(w, start).tasks.quotaExceeded
  {
    var input := GeminiService.NutritionRequest(w.recipes[i].title, w.recipes[i].ingredients,
                                                Some(w.recipes[i].steps));
    GeminiService.RateLimitIsQuota(input, sdk, parse, before, after);
    assert QuotaReplyAt(w, i);
    QuotaErrorEndsNutritionPass(w, start);
  }

  /** The nutrition cache after a run: the old entries, plus an entry for each estimate stored while `isMounted` held. */
  lemma NutritionCacheGainsOnlyEstimates(w: World, start: Tasks)
    requires w.Valid()
    ensures NutritionCacheOk(w, start, Run(w, start).tasks.nutritionCache, Run(w, start).nutritionRequested)
  {
    NutritionPassDone(w, start);
  }

  predicate UniqueIds(recipes: seq<Recipe>) {
    forall i, j :: 0 <= i < j < |recipes| ==> recipes[i].id != recipes[j].id
  }

  /** With distinct recipe ids, each estimate received while `isMounted` held is exactly what the cache holds for that recipe. */
  lemma StoredEstimateIsCached(w: World, start: Tasks, k: nat)
    requires w.Valid() && UniqueIds(w.recipes)
    requires NutritionStored(w, Run(w, start).nutritionRequested, k)
    ensures var i := Run(w, start).nutritionRequested[k];
      && w.recipes[i].id in Run(w, start).tasks.nutritionCache
      && Run(w, start).tasks.nutritionCache[w.recipes[i].id] == w.nutritionReplies[i].value.value
  {
    NutritionPassDone(w, start);
    var req := Run(w, start).nutritionRequested;
    var cache := Run(w, start).tasks.nutritionCache;
    var id := w.recipes[req[k]].id;
    assert id !in start.nutritionCache;
    var k' :| NutritionStored(w, req, k') && w.recipes[req[k']].id == id
              && cache[id] == w.nutritionReplies[req[k']].value.value;
    assert req[k'] == req[k];
    assert k' == k;
  }

  /** The positions from `i` on whose recipe needs a nutrition estimate, in order. */
  function NeedingNutrition(w: World, start: Tasks, i: nat): seq<nat>
    requires w.Valid() && i <= |w.recipes|
    decreases |w.recipes| - i
  {
    if i == |w.recipes| then []
    else (if NeedsNutrition(w, start, i) then [i] else []) + NeedingNutrition(w, start, i + 1)
  }

  /** Requesting `i` and then a prefix of `rest` is requesting a prefix of `[i] + rest`, one longer. */
  lemma PrefixAfterHead(done: seq<nat>, i: nat, rest: seq<nat>, k: nat)
    requires k <= |rest|
    ensures (done + [i]) + rest[..k] == done + ([i] + rest)[..k + 1]
    ensures k > 0 ==> ([i] + rest)[k] == rest[k - 1]
  {
    assert ([i] + rest)[..k + 1] == [i] + rest[..k];
  }

  /** One attempt at position `i`: a quota error ends the loop, any other reply moves on to `i + 1` with the state `q`. */
  lemma NutritionAttempt(w: World, start: Tasks, i: nat, p: NutritionProgress) returns (q: NutritionProgress)
    requires w.Valid() && i < |w.recipes| && w.MountedAfter(p.awaited) && !start.quotaExceeded
    requires NeedsNutrition(w, start, i)
    ensures q.requested == p.requested + [i] && q.awaited == p.awaited + 2
    ensures QuotaReplyAt(w, i) ==> NutritionFrom(w, start, i, p).requested == q.requested
    ensures !QuotaReplyAt(w, i) ==> NutritionFrom(w, start, i, p) == NutritionFrom(w, start, i + 1, q)
  {
    var reply := w.nutritionReplies[i];
    var cache := if reply.Returned? && reply.value.Some? && w.MountedAfter(p.awaited + 1)
                 then p.cache[w.recipes[i].id := reply.value.value] else p.cache;
    q := NutritionProgress(cache, p.quotaExceeded, p.requested + [i], p.awaited + 2);
  }

  /**
    From position `i` on, the nutrition loop requests a prefix of the positions that need an
    estimate; the prefix falls short only when the captured flag is set, `isMounted` is found
    false at the check before the next one, or the last request got the quota error.
  */
  lemma {:induction false} NutritionFromPrefix(w: World, start: Tasks, i: nat, p: NutritionProgress) returns (L: nat)
    requires w.Valid() && i <= |w.recipes|
    requires p.awaited == 2 * |p.requested|
    ensures L <= |NeedingNutrition(w, start, i)|
    ensures NutritionFrom(w, start, i, p).requested == p.requested + NeedingNutrition(w, start, i)[..L]
    ensures L < |NeedingNutrition(w, start, i)| ==>
              start.quotaExceeded || !w.MountedAfter(2 * (|p.requested| + L))
              || (L > 0 && QuotaReplyAt(w, NeedingNutrition(w, start, i)[L - 1]))
    decreases |w.recipes| - i
  {
    if i == |w.recipes| || !w.MountedAfter(p.awaited) || start.quotaExceeded {
      L := 0;
      assert p.requested + NeedingNutrition(w, start, i)[..0] == p.requested;
    } else if !NeedsNutrition(w, start, i) {
      assert NeedingNutrition(w, start, i) == NeedingNutrition(w, start, i + 1);
      L := NutritionFromPrefix(w, start, i + 1, p);
    } else {
      var need := NeedingNutrition(w, start, i);
      var rest := NeedingNutrition(w, start, i + 1);
      assert need == [i] + rest;
      var q := NutritionAttempt(w, start, i, p);
      assert need[0] == i;
      if QuotaReplyAt(w, i) {
        L := 1;
        PrefixAfterHead(p.requested, i, rest, 0);
      } else {
        var rest' := NutritionFromPrefix(w, start, i + 1, q);
        L := rest' + 1;
        PrefixAfterHead(p.requested, i, rest, rest');
        assert |q.requested| + rest' == |p.requested| + L;
      }
    }
  }

  /**
    The nutrition requests of a run are the positions that need an estimate, in list order, up to
    a cut. The run requests them all unless the quota flag was set at its start, `isMounted` was
    found false at the check before the next one, or the last request got the quota error: a `null`
    estimate or any other error never shortens the list.
  */
  lemma NutritionRequestsArePrefix(w: World, start: Tasks)
    requires w.Valid()
    ensures var req := Run(w, start).nutritionRequested;
            var need := NeedingNutrition(w, start, 0);
      && |req| <= |need| && req == need[..|req|]
      && (|req| < |need| ==>
            start.quotaExceeded || !w.MountedAfter(2 * |req|) || (|req| > 0 && QuotaReplyAt(w, req[|req| - 1])))
  {
    var need := NeedingNutrition(w, start, 0);
    var L := NutritionFromPrefix(w, start, 0, NutritionProgress(start.nutritionCache, start.quotaExceeded, [], 0));
    assert [] + need[..L] == need[..L];
  }

  /**
    While `isMounted` stays true and no quota error comes back, the nutrition pass requests every
    recipe that needs an estimate, in list order.
  */
  lemma NutritionPassRequestsAllMissing(w: World, start: Tasks)
    requires w.Valid() && !start.quotaExceeded && 2 * |w.recipes| <= w.liveAwaits
    requires forall j :: 0 <= j < |w.recipes| && NeedsNutrition(w, start, j) ==> !QuotaReplyAt(w, j)
    ensures Run(w, start).nutritionRequested == NeedingNutrition(w, start, 0)
  {
    NutritionRequestsArePrefix(w, start);
    NutritionPassDone(w, start);
    var req := Run(w, start).nutritionRequested;
    var need := NeedingNutrition(w, start, 0);
    assert w.MountedAfter(2 * |req|);
    assert |req| > 0 ==> !QuotaReplyAt(w, req[|req| - 1]);
    assert need[..|need|] == need;
  }

  // ---------------------------------------------------------------- the image pass

  /**
    The image requests: each for a recipe without a (truthy) image that was not in flight when the
    run started, the `k`th issued after `isMounted` was seen true `k` attempts into the pass, in order.
  */
  ghost predicate ImageRequestsOk(w: World, start: Tasks, afterAwaits: nat, requested: seq<nat>)
    requires w.Valid()
  {
    && (forall k :: 0 <= k < |requested| ==>
          requested[k] < |w.recipes| && NeedsImage(w, start, requested[k]) && w.MountedAfter(afterAwaits + 2 * k))
    && (forall k1, k2 :: 0 <= k1 < k2 < |requested| ==> requested[k1] < requested[k2])
  }

  /** The `k`th image request brought a non-empty image back while `isMounted` still held. */
  ghost predicate ImageStored(w: World, afterAwaits: nat, requested: seq<nat>, k: int)
    requires w.Valid()
  {
    0 <= k < |requested| && requested[k] < |w.recipes|
      && w.imageReplies[requested[k]].Returned? && w.imageReplies[requested[k]].value.Some?
      && w.imageReplies[requested[k]].value.value != ""
      && w.MountedAfter(afterAwaits + 2 * k + 1)
  }

  /**
    The image cache keeps every image it started with, and every entry that changed holds the image
    some request stored for that id; every stored image has a non-empty entry.
  */
  ghost predicate ImageCacheOk(w: World, start: Tasks, afterAwaits: nat, images: map<string, string>, requested: seq<nat>)
    requires w.Valid()
  {
    && (forall id :: HasImage(start.generatedImages, id) ==> id in images && images[id] == start.generatedImages[id])
    && (forall id :: id in start.generatedImages ==> id in images)
    && (forall id :: id in images ==>
          (id in start.generatedImages && images[id] == start.generatedImages[id]) ||
          exists k :: ImageStored(w, afterAwaits, requested, k) && w.recipes[requested[k]].id == id
                      && images[id] == w.imageReplies[requested[k]].value.value)
    && (forall k :: ImageStored(w, afterAwaits, requested, k) ==>
          w.recipes[requested[k]].id in images && images[w.recipes[requested[k]].id] != "")
  }

  ghost predicate ImageRunning(w: World, start: Tasks, afterAwaits: nat, i: nat, p: ImageProgress)
    requires w.Valid()
  {
    && i <= |w.recipes|
    && p.awaited == afterAwaits + 2 * |p.requested| && |p.requested| <= i
    && ImageRequestsOk(w, start, afterAwaits, p.requested)
    && (forall k :: 0 <= k < |p.requested| ==> p.requested[k] < i)
    && ImageCacheOk(w, start, afterAwaits, p.images, p.requested)
  }

  lemma ImageCacheStep(w: World, start: Tasks, afterAwaits: nat, images: map<string, string>, requested: seq<nat>,
                       i: nat, newImages: map<string, string>)
    requires w.Valid() && i < |w.recipes| && NeedsImage(w, start, i)
    requires ImageCacheOk(w, start, afterAwaits, images, requested)
    requires newImages == if ImageStored(w, afterAwaits, requested + [i], |requested|)
                          then images[w.recipes[i].id := w.imageReplies[i].value.value] else images
    ensures ImageCacheOk(w, start, afterAwaits, newImages, requested + [i])
  {
    var more := requested + [i];
    var id := w.recipes[i].id;
    var stored := ImageStored(w, afterAwaits, more, |requested|);
    forall k | 0 <= k < |requested|
      ensures more[k] == requested[k]
              && (ImageStored(w, afterAwaits, more, k) <==> ImageStored(w, afterAwaits, requested, k))
    {
    }
    forall x | x in newImages
      ensures (x in start.generatedImages && newImages[x] == start.generatedImages[x]) ||
              exists k :: ImageStored(w, afterAwaits, more, k) && w.recipes[more[k]].id == x
                          && newImages[x] == w.imageReplies[more[k]].value.value
    {
      if stored && x == id {
        assert ImageStored(w, afterAwaits, more, |requested|) && w.recipes[more[|requested|]].id == x;
      } else if !(x in start.generatedImages && images[x] == start.generatedImages[x]) {
        var k :| ImageStored(w, afterAwaits, requested, k) && w.recipes[requested[k]].id == x
                 && images[x] == w.imageReplies[requested[k]].value.value;
        assert ImageStored(w, afterAwaits, more, k);
      }
    }
    forall k | ImageStored(w, afterAwaits, more, k)
      ensures w.recipes[more[k]].id in newImages && newImages[w.recipes[more[k]].id] != ""
    {
      if k < |requested| {
        assert ImageStored(w, afterAwaits, requested, k);
      }
    }
  }

  /** One image request keeps the loop's invariant and moves it on to position `i + 1` with the state `q`. */
  lemma ImageRunningStep(w: World, start: Tasks, afterAwaits: nat, i: nat, p: ImageProgress) returns (q: ImageProgress)
    requires w.Valid() && ImageRunning(w, start, afterAwaits, i, p)
    requires i < |w.recipes| && w.MountedAfter(p.awaited) && NeedsImage(w, start, i)
    ensures ImageRunning(w, start, afterAwaits, i + 1, q)
    ensures ImageFrom(w, start, i, p) == ImageFrom(w, start, i + 1, q)
  {
    var more := p.requested + [i];
    assert ImageRequestsOk(w, start, afterAwaits, more) by {
      assert forall k :: 0 <= k < |p.requested| ==> more[k] == p.requested[k];
    }
    var reply := w.imageReplies[i];
    var stored := ImageStored(w, afterAwaits, more, |p.requested|);
    var images := if stored then p.images[w.recipes[i].id := reply.value.value] else p.images;
    ImageCacheStep(w, start, afterAwaits, p.images, p.requested, i, images);
    q := ImageProgress(images, more, p.awaited + 2);
  }

  lemma {:induction false} ImageFromDone(w: World, start: Tasks, afterAwaits: nat, i: nat, p: ImageProgress)
    requires w.Valid() && ImageRunning(w, start, afterAwaits, i, p)
    ensures var r := ImageFrom(w, start, i, p);
      ImageRunning(w, start, afterAwaits, |w.recipes|, r)
    decreases |w.recipes| - i
  {
    if i == |w.recipes| || !w.MountedAfter(p.awaited) {
    } else if !NeedsImage(w, start, i) {
      ImageFromDone(w, start, afterAwaits, i + 1, p);
    } else {
      var q := ImageRunningStep(w, start, afterAwaits, i, p);
      ImageFromDone(w, start, afterAwaits, i + 1, q);
    }
  }

  lemma ImagePassDone(w: World, start: Tasks, afterAwaits: nat)
    requires w.Valid()
    ensures ImageRunning(w, start, afterAwaits, |w.recipes|, ImagePass(w, start, afterAwaits))
  {
    ImageFromDone(w, start, afterAwaits, 0, ImageProgress(start.generatedImages, [], afterAwaits));
  }

  /** Every image request of a run is for a recipe that lacked an image and was not in flight, in list order, while `isMounted` held. */
  lemma ImageRequestsAreEligible(w: World, start: Tasks)
    requires w.Valid()
    ensures ImageRequestsOk(w, start, 2 * |Run(w, start).nutritionRequested|, Run(w, start).imageRequested)
  {
    NutritionPassDone(w, start);
    ImagePassDone(w, start, NutritionPass(w, start).awaited);
  }

  /** The image cache after a run: the images it had, plus an entry for each image stored while `isMounted` held. */
  lemma ImageCacheGainsOnlyImages(w: World, start: Tasks)
    requires w.Valid()
    ensures ImageCacheOk(w, start, 2 * |Run(w, start).nutritionRequested|,
                         Run(w, start).tasks.generatedImages, Run(w, start).imageRequested)
  {
    NutritionPassDone(w, start);
    ImagePassDone(w, start, NutritionPass(w, start).awaited);
  }

  /** With distinct recipe ids, each image received while `isMounted` held is exactly what the image cache holds for that recipe. */
  lemma StoredImageIsCached(w: World, start: Tasks, k: nat)
    requires w.Valid() && UniqueIds(w.recipes)
    requires ImageStored(w, 2 * |Run(w, start).nutritionRequested|, Run(w, start).imageRequested, k)
    ensures var i := Run(w, start).imageRequested[k];
      && w.recipes[i].id in Run(w, start).tasks.generatedImages
      && Run(w, start).tasks.generatedImages[w.recipes[i].id] == w.imageReplies[i].value.value
  {
    NutritionPassDone(w, start);
    ImagePassDone(w, start, NutritionPass(w, start).awaited);
    var a := 2 * |Run(w, start).nutritionRequested|;
    var req := Run(w, start).imageRequested;
    var images := Run(w, start).tasks.generatedImages;
    var id := w.recipes[req[k]].id;
    assert !(id in start.generatedImages && images[id] == start.generatedImages[id]);
    var k' :| ImageStored(w, a, req, k') && w.recipes[req[k']].id == id
              && images[id] == w.imageReplies[req[k']].value.value;
    assert req[k'] == req[k];
    assert k' == k;
  }

  /** The positions from `i` on whose recipe needs an image, in order. */
  function NeedingImages(w: World, start: Tasks, i: nat): seq<nat>
    requires w.Valid() && i <= |w.recipes|
    decreases |w.recipes| - i
  {
    if i == |w.recipes| then []
    else (if NeedsImage(w, start, i) then [i] else []) + NeedingImages(w, start, i + 1)
  }

  /** From position `i` on, the image loop requests a prefix of the positions that need an image, cut only by unmounting. */
  lemma {:induction false} ImageFromPrefix(w: World, start: Tasks, afterAwaits: nat, i: nat, p: ImageProgress)
    returns (L: nat)
    requires w.Valid() && i <= |w.recipes|
    requires p.awaited == afterAwaits + 2 * |p.requested|
    ensures L <= |NeedingImages(w, start, i)|
    ensures ImageFrom(w, start, i, p).requested == p.requested + NeedingImages(w, start, i)[..L]
    ensures L < |NeedingImages(w, start, i)| ==> !w.MountedAfter(afterAwaits + 2 * (|p.requested| + L))
    decreases |w.recipes| - i
  {
    if i == |w.recipes| || !w.MountedAfter(p.awaited) {
      L := 0;
      assert p.requested + NeedingImages(w, start, i)[..0] == p.requested;
    } else if !NeedsImage(w, start, i) {
      assert NeedingImages(w, start, i) == NeedingImages(w, start, i + 1);
      L := ImageFromPrefix(w, start, afterAwaits, i + 1, p);
    } else {
      var need := NeedingImages(w, start, i);
      var rest := NeedingImages(w, start, i + 1);
      assert need == [i] + rest;
      var more := p.requested + [i];
      var reply := w.imageReplies[i];
      var images := if reply.Returned? && reply.value.Some? && reply.value.value != "" && w.MountedAfter(p.awaited + 1)
                    then p.images[w.recipes[i].id := reply.value.value] else p.images;
      var q := ImageProgress(images, more, p.awaited + 2);
      assert ImageFrom(w, start, i, p) == ImageFrom(w, start, i + 1, q);
      var rest' := ImageFromPrefix(w, start, afterAwaits, i + 1, q);
      L := rest' + 1;
      PrefixAfterHead(p.requested, i, rest, rest');
    }
  }

  /**
    The image requests of a run are the positions that need an image, in list order, up to a cut
    that only a check finding `isMounted` false before the next one makes: neither the replies nor the quota flag
    shorten the list, so a quota error in the nutrition pass does not stop the image pass.
  */
  lemma ImageRequestsArePrefix(w: World, start: Tasks)
    requires w.Valid()
    ensures var req := Run(w, start).imageRequested;
            var need := NeedingImages(w, start, 0);
      && |req| <= |need| && req == need[..|req|]
      && (|req| < |need| ==> !w.MountedAfter(2 * |Run(w, start).nutritionRequested| + 2 * |req|))
  {
    NutritionPassDone(w, start);
    var a := NutritionPass(w, start).awaited;
    var need := NeedingImages(w, start, 0);
    var L := ImageFromPrefix(w, start, a, 0, ImageProgress(start.generatedImages, [], a));
    assert [] + need[..L] == need[..L];
  }

  /** While `isMounted` stays true, the image pass requests every recipe that needs an image, in order. */
  lemma ImagePassRequestsAllMissing(w: World, start: Tasks)
    requires w.Valid() && 4 * |w.recipes| <= w.liveAwaits
    ensures Run(w, start).imageRequested == NeedingImages(w, start, 0)
  {
    ImageRequestsArePrefix(w, start);
    NutritionPassDone(w, start);
    ImagePassDone(w, start, NutritionPass(w, start).awaited);
    var need := NeedingImages(w, start, 0);
    assert w.MountedAfter(2 * |Run(w, start).nutritionRequested| + 2 * |Run(w, start).imageRequested|);
    assert need[..|need|] == need;
  }

  /**
    The in-flight sets and the quota flag after a run. Run never changes the in-flight sets, so the
    first two clauses hold by its definition: the marks each request adds and the loop later removes
    are stated by the ensures of `Enrichment.NutritionLoop` and `Enrichment.ImageLoop`, whose ghost
    results record the in-flight set at each call. The last two clauses say the image pass leaves
    the quota flag as the nutrition pass set it, and the flag is never cleared.
  */
  lemma RunFrame(w: World, start: Tasks)
    requires w.Valid()
    ensures Run(w, start).tasks.processingNutrition == start.processingNutrition
    ensures Run(w, start).tasks.processingImages == start.processingImages
    ensures Run(w, start).tasks.quotaExceeded == NutritionPass(w, start).quotaExceeded
    ensures start.quotaExceeded ==> Run(w, start).tasks.quotaExceeded
  {
  }
}
