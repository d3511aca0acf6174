/** The job ingestion of app/api/api/route.ts: generateUniqueSlug, which
    tries base, base-1, base-2, ... against a mutable set of known slugs,
    and the POST handler, which looks up the 'jobs' category, fetches one
    page of the job feed, and for each job not already stored under the
    same (title, content) inserts a published post with a fresh slug and
    an HTML body assembled from the job's optional sections. */
module JobIngest {
  import opened Common
  import opened Posts

  // ---------------------------------------------------------------------
  // Slug candidates

  /** The k-th slug generateUniqueSlug tries: the base itself, then
      `${base}-${k}`. */
  function Candidate(base: string, k: nat): string {
    if k == 0 then base else base + "-" + NatToString(k)
  }

  /** Different counters give different candidates. */
  lemma CandidateInjective(base: string, j: nat, k: nat)
    requires Candidate(base, j) == Candidate(base, k)
    ensures j == k
  {
    if j != 0 && k != 0 {
      assert Candidate(base, j)[|base| + 1..] == NatToString(j);
      assert Candidate(base, k)[|base| + 1..] == NatToString(k);
      NatToStringInjective(j, k);
    }
  }

  /** Whether the first `n` candidates are all taken. */
  predicate AllTakenBelow(base: string, used: set<string>, n: nat) {
    forall j :: 0 <= j < n ==> Candidate(base, j) in used
  }

  /** The first `n` candidates, as a set: they are `n` distinct strings. */
  function CandidatesBelow(base: string, n: nat): (r: set<string>)
    ensures |r| == n
    ensures forall m: nat :: n <= m ==> Candidate(base, m) !in r
  {
    if n == 0 then {}
    else
      var smaller := CandidatesBelow(base, n - 1);
      assert forall m: nat :: n <= m ==> Candidate(base, m) != Candidate(base, n - 1) by {
        forall m: nat | n <= m && Candidate(base, m) == Candidate(base, n - 1) ensures false {
          CandidateInjective(base, m, n - 1);
        }
      }
      smaller + {Candidate(base, n - 1)}
  }

  /** Pigeonhole: if the first `n` candidates are taken, the set holds at
      least `n` strings. */
  lemma {:induction false} TakenBound(base: string, used: set<string>, n: nat)
    requires AllTakenBelow(base, used, n)
    ensures CandidatesBelow(base, n) <= used
    ensures n <= |used|
  {
    if n > 0 {
      TakenBound(base, used, n - 1);
    }
    var c := CandidatesBelow(base, n);
    assert used == c + (used - c);
    assert |used| == |c| + |used - c|;
  }

  /** The counter of the first free candidate from `k` on. */
  function FirstFreeIndex(base: string, used: set<string>, k: nat): (r: nat)
    requires AllTakenBelow(base, used, k)
    ensures k <= r
    ensures Candidate(base, r) !in used
    ensures AllTakenBelow(base, used, r)
    decreases |used| - k
  {
    if Candidate(base, k) !in used then k
    else
      TakenBound(base, used, k + 1);
      FirstFreeIndex(base, used, k + 1)
  }

  /** The slug generateUniqueSlug returns for `base` against `used`. */
  function UniqueSlug(base: string, used: set<string>): (r: string)
    ensures r !in used
  {
    Candidate(base, FirstFreeIndex(base, used, 0))
  }

  /** The returned slug is base itself when that is free, and otherwise
      base-k for the smallest k >= 1 whose candidate is free. */
  lemma UniqueSlugIsFirstFree(base: string, used: set<string>, k: nat)
    requires Candidate(base, k) !in used
    requires AllTakenBelow(base, used, k)
    ensures UniqueSlug(base, used) == Candidate(base, k)
  {
    var f := FirstFreeIndex(base, used, 0);
  }

  /** A free base slug is returned unchanged. */
  lemma UniqueSlugOfFreeBase(base: string, used: set<string>)
    requires base !in used
    ensures UniqueSlug(base, used) == base
  {
    UniqueSlugIsFirstFree(base, used, 0);
  }

  /** Two successive calls against the same set, which the first call
      extended, never return the same slug, whatever the titles. */
  lemma SuccessiveSlugsDiffer(base1: string, base2: string, used: set<string>)
    ensures UniqueSlug(base2, used + {UniqueSlug(base1, used)}) != UniqueSlug(base1, used)
  {
  }

  /** The mutable Set<string> that generateUniqueSlug receives and extends. */
  class SlugSet {
    var slugs: set<string>

    constructor (initial: set<string>)
      ensures slugs == initial
    {
      slugs := initial;
    }
  }

  /** generateUniqueSlug: slugify the title, count up from 1 while the
      candidate is taken, then add the winner to the set. */
  method GenerateUniqueSlug(title: string, existing: SlugSet, slugify: string -> string)
    returns (uniqueSlug: string)
    modifies existing
    ensures uniqueSlug !in old(existing.slugs)
    ensures uniqueSlug == UniqueSlug(slugify(title), old(existing.slugs))
    ensures existing.slugs == old(existing.slugs) + {uniqueSlug}
  {
    var slug := slugify(title);
    uniqueSlug := slug;
    var counter: nat := 1;
    while uniqueSlug in existing.slugs
      invariant 1 <= counter
      invariant uniqueSlug == Candidate(slug, counter - 1)
      invariant AllTakenBelow(slug, existing.slugs, counter - 1)
      invariant counter - 1 <= |existing.slugs|
      invariant existing.slugs == old(existing.slugs)
      decreases |existing.slugs| - (counter - 1)
    {
      TakenBound(slug, existing.slugs, counter);
      uniqueSlug := slug + "-" + NatToString(counter);
      counter := counter + 1;
    }
    UniqueSlugIsFirstFree(slug, existing.slugs, counter - 1);
    existing.slugs := existing.slugs + {uniqueSlug};
  }

  // ---------------------------------------------------------------------
  // Jobs and the post body built from them

  /** A record of the job feed, as far as the handler reads it. Absent or
      null fields are None (Undefined/Null for the salary bounds). */
  datatype Job = Job(
    title: string,
    description: Option<string>,
    companyLogo: string,
    mandatorySkills: Option<seq<string>>,
    desiredSkills: Option<seq<string>>,
    languageSkills: Option<seq<string>>,
    howToApply: Option<string>,
    salaryFrom: JsValue,
    salaryTo: JsValue)

  datatype Category = Category(id: int, name: string)

  /** What the fetch of the feed gives: a non-2xx status, or the `data`
      array of the JSON body. */
  datatype Feed = HttpError(status: int) | Jobs(jobs: seq<Job>)

  /** One heading of the assembled body and the text under it;
      `emphasised` is the styled h3 used for "How to Apply". */
  datatype Section = Section(heading: string, body: string, emphasised: bool)

  const ImageHost := "https://pub-f30882b481294faa997a4d11ff77ce65.r2.dev/"
  const JobsMetaDescription := "Jobs and Vacancies in Ethiopia | Ethiojobs"
  const NotSpecified := "Not specified"

  predicate NonEmptyList(names: Option<seq<string>>) {
    names.Some? && |names.value| > 0
  }

  function SkillSection(heading: string, names: Option<seq<string>>): seq<Section> {
    if NonEmptyList(names) then [Section(heading, Join(names.value, ", "), false)] else []
  }

  /** "from - to" when both bounds are truthy, otherwise "Not specified". */
  function SalaryText(from: JsValue, to: JsValue): (r: string)
    ensures Truthy(from) && Truthy(to) ==> r == ToJsString(from) + " - " + ToJsString(to)
    ensures !(Truthy(from) && Truthy(to)) ==> r == NotSpecified
  {
    if Truthy(from) && Truthy(to) then ToJsString(from) + " - " + ToJsString(to) else NotSpecified
  }

  predicate HasHeading(sections: seq<Section>, heading: string) {
    exists i :: 0 <= i < |sections| && sections[i].heading == heading
  }

  /** The sections of fullContent after the description, in order. */
  function JobSections(job: Job): (r: seq<Section>)
    ensures 2 <= |r| <= 5
    ensures HasHeading(r, "Required Skills") <==> NonEmptyList(job.mandatorySkills)
    ensures HasHeading(r, "Desired Skills") <==> NonEmptyList(job.desiredSkills)
    ensures HasHeading(r, "Language Skills") <==> NonEmptyList(job.languageSkills)
    ensures r[|r| - 2] == Section("How to Apply", OrElse(job.howToApply, NotSpecified), true)
    ensures r[|r| - 1] == Section("Salary Range", SalaryText(job.salaryFrom, job.salaryTo), false)
  {
    var skills := SkillSection("Required Skills", job.mandatorySkills)
                  + SkillSection("Desired Skills", job.desiredSkills)
                  + SkillSection("Language Skills", job.languageSkills);
    var r := skills + [Section("How to Apply", OrElse(job.howToApply, NotSpecified), true),
                       Section("Salary Range", SalaryText(job.salaryFrom, job.salaryTo), false)];
    var m := |SkillSection("Required Skills", job.mandatorySkills)|;
    var d := |SkillSection("Desired Skills", job.desiredSkills)|;
    assert NonEmptyList(job.mandatorySkills) ==> r[0].heading == "Required Skills";
    assert NonEmptyList(job.desiredSkills) ==> r[m].heading == "Desired Skills";
    assert NonEmptyList(job.languageSkills) ==> r[m + d].heading == "Language Skills";
    assert HasHeading(r, "Required Skills") ==> NonEmptyList(job.mandatorySkills);
    assert HasHeading(r, "Desired Skills") ==> NonEmptyList(job.desiredSkills);
    assert HasHeading(r, "Language Skills") ==> NonEmptyList(job.languageSkills);
    r
  }

  function RenderSection(s: Section): string {
    if s.emphasised
    then "\n<h3 className=\"font-bold text-blue-500\">" + s.heading + "</h3>\n" + s.body + "\n"
    else "\n<h2>" + s.heading + "</h2>\n" + s.body + "\n"
  }

  function RenderSections(sections: seq<Section>): string {
    if sections == [] then "" else RenderSection(sections[0]) + RenderSections(sections[1..])
  }

  /** fullContent: the description (or ""), then the sections. */
  function FullContent(job: Job): string {
    "\n" + OrElse(job.description, "") + "\n" + RenderSections(JobSections(job))
  }

  /** The post the handler inserts for a job. */
  function JobPost(id: int, job: Job, slug: string, categoryId: int, now: int): PostRow {
    PostRow(id, Some(categoryId), job.title, slug, None, FullContent(job),
            None, Some(JobsMetaDescription), None, Some(ImageHost + job.companyLogo),
            None, None, Published, now)
  }

  // ---------------------------------------------------------------------
  // The ingestion loop as a fold

  /** `SELECT id FROM posts WHERE title = ? AND content = ?` finds `row`.
      A null description makes `content = NULL`, which matches nothing. */
  predicate Matches(row: PostRow, job: Job) {
    job.description.Some? && row.title == job.title && row.content == job.description.value
  }

  predicate IsDuplicate(rows: seq<PostRow>, job: Job) {
    exists k :: 0 <= k < |rows| && Matches(rows[k], job)
  }

  function SlugsOf(rows: seq<PostRow>): set<string> {
    set k | 0 <= k < |rows| :: rows[k].slug
  }

  /** The handler's state between jobs: the posts table, the slug set,
      the next auto-increment id and jobsStored. */
  datatype Batch = Batch(rows: seq<PostRow>, slugs: set<string>, nextId: int, stored: nat)

  function Start(rows: seq<PostRow>, nextId: int): Batch {
    Batch(rows, SlugsOf(rows), nextId, 0)
  }

  /** One iteration of the `for (const job of jobs)` loop. */
  function IngestJob(b: Batch, job: Job, categoryId: int, now: int, slugify: string -> string): Batch {
    if IsDuplicate(b.rows, job) then b
    else
      var slug := UniqueSlug(slugify(job.title), b.slugs);
      Batch(b.rows + [JobPost(b.nextId, job, slug, categoryId, now)], b.slugs + {slug}, b.nextId + 1, b.stored + 1)
  }

  /** The loop over a prefix of the jobs. */
  function IngestAll(b: Batch, jobs: seq<Job>, categoryId: int, now: int, slugify: string -> string): Batch
    decreases |jobs|
  {
    if jobs == [] then b
    else IngestJob(IngestAll(b, jobs[..|jobs| - 1], categoryId, now, slugify), jobs[|jobs| - 1], categoryId, now, slugify)
  }

  /** `SELECT id FROM categories WHERE name = 'jobs'`, first row. */
  function JobsCategoryId(categories: seq<Category>): Option<int> {
    var c := FirstWhere(categories, (c: Category) => c.name == "jobs");
    if c.Some? then Some(c.value.id) else None
  }

  /** How many jobs the loop gets through: all, or up to the one whose
      database statement throws. */
  function StopIndex(failAt: Option<nat>, n: nat): (r: nat)
    ensures r <= n
  {
    if failAt.Some? && failAt.value < n then failAt.value else n
  }

  datatype IngestResponse = Stored(jobsStored: nat) | Failed {
    function Status(): Status {
      if Stored? then Ok else InternalServerError
    }
  }

  /** IngestAll over one more job is one more loop iteration. */
  lemma IngestAllStep(b: Batch, jobs: seq<Job>, i: nat, cat: int, now: int, slugify: string -> string)
    requires i < |jobs|
    ensures IngestAll(b, jobs[..i + 1], cat, now, slugify)
            == IngestJob(IngestAll(b, jobs[..i], cat, now, slugify), jobs[i], cat, now, slugify)
  {
    assert jobs[..i + 1][..i] == jobs[..i];
  }

  /** The POST handler. `feed` is the result of the fetch, `failAt` the
      index of the job at which a database statement throws (if any),
      `now` the time NOW() gives. */
  method IngestJobs(store: PostStore, categories: seq<Category>, feed: Feed, failAt: Option<nat>,
                    slugify: string -> string, now: int)
    returns (resp: IngestResponse)
    requires store.Valid()
    modifies store
    ensures store.Valid()
    ensures JobsCategoryId(categories).None? || feed.HttpError? ==>
              resp == Failed && store.rows == old(store.rows) && store.nextId == old(store.nextId)
    ensures JobsCategoryId(categories).Some? && feed.Jobs? ==>
              var stop := StopIndex(failAt, |feed.jobs|);
              var b := IngestAll(Start(old(store.rows), old(store.nextId)), feed.jobs[..stop],
                                 JobsCategoryId(categories).value, now, slugify);
              store.rows == b.rows && store.nextId == b.nextId &&
              resp == (if stop < |feed.jobs| then Failed else Stored(b.stored))
  {
    var categoryId := JobsCategoryId(categories);
    if categoryId.None? {
      return Failed;
    }
    if feed.HttpError? {
      return Failed;
    }
    resp := StoreJobs(store, feed.jobs, StopIndex(failAt, |feed.jobs|), categoryId.value, slugify, now);
  }

  /** The `for (const job of jobs)` loop; the statement for job `stop`
      throws when `stop` is inside the list. */
  method StoreJobs(store: PostStore, jobs: seq<Job>, stop: nat, categoryId: int,
                   slugify: string -> string, now: int)
    returns (resp: IngestResponse)
    requires store.Valid()
    requires stop <= |jobs|
    modifies store
    ensures store.Valid()
    ensures var b := IngestAll(Start(old(store.rows), old(store.nextId)), jobs[..stop], categoryId, now, slugify);
            store.rows == b.rows && store.nextId == b.nextId &&
            resp == (if stop < |jobs| then Failed else Stored(b.stored))
  {
    var jobsStored := 0;
    var existingSlugs := new SlugSet(SlugsOf(store.rows));
    ghost var start := Start(store.rows, store.nextId);
    var i := 0;
    while i < |jobs|
      invariant 0 <= i <= stop
      invariant store.Valid()
      invariant IngestAll(start, jobs[..i], categoryId, now, slugify)
                == Batch(store.rows, existingSlugs.slugs, store.nextId, jobsStored)
    {
      if i == stop {
        return Failed;
      }
      IngestAllStep(start, jobs, i, categoryId, now, slugify);
      var added := StoreJob(store, existingSlugs, jobs[i], categoryId, slugify, now, jobsStored);
      if added {
        jobsStored := jobsStored + 1;
      }
      i := i + 1;
    }
    assert jobs[..i] == jobs;
    resp := Stored(jobsStored);
  }

  /** One iteration of the loop: a job found by the duplicate query is
      skipped; any other gets a unique slug and is inserted. */
  method StoreJob(store: PostStore, existingSlugs: SlugSet, job: Job, categoryId: int,
                  slugify: string -> string, now: int, ghost count: nat)
    returns (added: bool)
    requires store.Valid()
    modifies store, existingSlugs
    ensures store.Valid()
    ensures added == !IsDuplicate(old(store.rows), job)
    ensures IngestJob(Batch(old(store.rows), old(existingSlugs.slugs), old(store.nextId), count),
                      job, categoryId, now, slugify)
            == Batch(store.rows, existingSlugs.slugs, store.nextId, if added then count + 1 else count)
  {
    added := !IsDuplicate(store.rows, job);
    if added {
      var slug := GenerateUniqueSlug(job.title, existingSlugs, slugify);
      var id := store.Insert(JobPost(0, job, slug, categoryId, now));
      assert JobPost(0, job, slug, categoryId, now).(id := id) == JobPost(id, job, slug, categoryId, now);
    }
  }

  // ---------------------------------------------------------------------
  // Properties of the ingestion

  /** The loop only appends: every appended row is a published post of the
      jobs category, and jobsStored counts the appended rows. */
  lemma {:induction false} IngestAppends(b: Batch, jobs: seq<Job>, cat: int, now: int, slugify: string -> string)
    ensures var e := IngestAll(b, jobs, cat, now, slugify);
            && b.stored <= e.stored <= b.stored + |jobs|
            && |e.rows| == |b.rows| + (e.stored - b.stored)
            && e.nextId == b.nextId + (e.stored - b.stored)
            && e.rows[..|b.rows|] == b.rows
            && forall k :: |b.rows| <= k < |e.rows| ==>
                 e.rows[k].status == Published && e.rows[k].categoryId == Some(cat) &&
                 e.rows[k].metaDescription == Some(JobsMetaDescription)
  {
    if jobs != [] {
      var m := IngestAll(b, jobs[..|jobs| - 1], cat, now, slugify);
      IngestAppends(b, jobs[..|jobs| - 1], cat, now, slugify);
      IngestJobAppends(m, jobs[|jobs| - 1], cat, now, slugify);
      var e := IngestAll(b, jobs, cat, now, slugify);
      assert e.rows[..|b.rows|] == m.rows[..|b.rows|];
    }
  }

  /** One step of the loop appends at most one published row in the jobs
      category. */
  lemma IngestJobAppends(m: Batch, job: Job, cat: int, now: int, slugify: string -> string)
    ensures var e := IngestJob(m, job, cat, now, slugify);
            && m.stored <= e.stored <= m.stored + 1
            && |e.rows| == |m.rows| + (e.stored - m.stored)
            && e.nextId == m.nextId + (e.stored - m.stored)
            && e.rows[..|m.rows|] == m.rows
            && forall k :: |m.rows| <= k < |e.rows| ==>
                 e.rows[k].status == Published && e.rows[k].categoryId == Some(cat) &&
                 e.rows[k].metaDescription == Some(JobsMetaDescription)
  {
  }

  /** Slugs given out in one run are pairwise distinct and none of them was
      already known, so two jobs with the same title get different slugs. */
  lemma {:induction false} IngestSlugsFresh(b: Batch, jobs: seq<Job>, cat: int, now: int, slugify: string -> string)
    ensures var e := IngestAll(b, jobs, cat, now, slugify);
            && b.slugs <= e.slugs
            && |b.rows| <= |e.rows|
            && e.rows[..|b.rows|] == b.rows
            && (forall k :: |b.rows| <= k < |e.rows| ==> e.rows[k].slug in e.slugs && e.rows[k].slug !in b.slugs)
            && (forall j, k :: |b.rows| <= j < k < |e.rows| ==> e.rows[j].slug != e.rows[k].slug)
  {
    if jobs != [] {
      var prefix := jobs[..|jobs| - 1];
      IngestSlugsFresh(b, prefix, cat, now, slugify);
      IngestAppends(b, prefix, cat, now, slugify);
      IngestJobAppends(IngestAll(b, prefix, cat, now, slugify), jobs[|jobs| - 1], cat, now, slugify);
    }
  }

  /** The slug set the handler starts from is exactly the stored slugs, and
      stays so: every slug handed out is written to the table. */
  lemma {:induction false} IngestSlugsTracked(b: Batch, jobs: seq<Job>, cat: int, now: int, slugify: string -> string)
    requires b.slugs == SlugsOf(b.rows)
    ensures var e := IngestAll(b, jobs, cat, now, slugify);
            e.slugs == SlugsOf(e.rows)
  {
    if jobs != [] {
      var m := IngestAll(b, jobs[..|jobs| - 1], cat, now, slugify);
      IngestSlugsTracked(b, jobs[..|jobs| - 1], cat, now, slugify);
      var e := IngestJob(m, jobs[|jobs| - 1], cat, now, slugify);
      if e != m {
        var row := e.rows[|e.rows| - 1];
        assert e.rows == m.rows + [row];
        forall s | s in SlugsOf(e.rows) ensures s in e.slugs {
          var k :| 0 <= k < |e.rows| && e.rows[k].slug == s;
          if k < |m.rows| { assert m.rows[k].slug == s; }
        }
        forall s | s in e.slugs ensures s in SlugsOf(e.rows) {
          if s in m.slugs {
            var k :| 0 <= k < |m.rows| && m.rows[k].slug == s;
            assert e.rows[k].slug == s;
          } else {
            assert e.rows[|e.rows| - 1].slug == s;
          }
        }
      }
    }
  }

  /** Jobs without a description never match a stored row (the query
      compares content with NULL), so each of them is stored. */
  lemma {:induction false} NoDescriptionAlwaysStored(b: Batch, jobs: seq<Job>, cat: int, now: int, slugify: string -> string)
    requires forall k :: 0 <= k < |jobs| ==> jobs[k].description.None?
    ensures IngestAll(b, jobs, cat, now, slugify).stored == b.stored + |jobs|
  {
    if jobs != [] {
      NoDescriptionAlwaysStored(b, jobs[..|jobs| - 1], cat, now, slugify);
    }
  }

  /** A job already stored under its (title, description) is skipped, and
      stays skipped: the table only grows. */
  lemma {:induction false} DuplicatesSkipped(b: Batch, jobs: seq<Job>, cat: int, now: int, slugify: string -> string)
    requires forall k :: 0 <= k < |jobs| ==> IsDuplicate(b.rows, jobs[k])
    ensures IngestAll(b, jobs, cat, now, slugify) == b
  {
    if jobs != [] {
      DuplicatesSkipped(b, jobs[..|jobs| - 1], cat, now, slugify);
    }
  }

  /** The body the handler stores is longer than the description, so the
      post it inserts for a job never matches that job's own check. */
  lemma OwnPostNeverMatches(id: int, job: Job, slug: string, cat: int, now: int)
    ensures !Matches(JobPost(id, job, slug, cat, now), job)
  {
    var content := FullContent(job);
    assert |content| > |OrElse(job.description, "")|;
  }

  /** Running the handler twice on the same one-job feed stores the job
      twice, under two different slugs: the duplicate check does not make
      the ingestion idempotent. */
  lemma {:induction false} ReingestStoresAgain(job: Job, cat: int, now: int, slugify: string -> string)
    requires job.description.Some?
    ensures var first := IngestAll(Start([], 1), [job], cat, now, slugify);
            var second := IngestAll(Start(first.rows, first.nextId), [job], cat, now, slugify);
            && first.stored == 1 && second.stored == 1
            && |second.rows| == 2
            && second.rows[0].slug != second.rows[1].slug
  {
    var first := IngestAll(Start([], 1), [job], cat, now, slugify);
    assert [job][..0] == [];
    assert IngestAll(Start([], 1), [], cat, now, slugify) == Start([], 1);
    assert first == IngestJob(Start([], 1), job, cat, now, slugify);
    assert first.rows == [JobPost(1, job, UniqueSlug(slugify(job.title), {}), cat, now)];
    OwnPostNeverMatches(1, job, UniqueSlug(slugify(job.title), {}), cat, now);
    var s := Start(first.rows, first.nextId);
    assert !IsDuplicate(s.rows, job);
    assert s.slugs == {first.rows[0].slug};
  }
}
