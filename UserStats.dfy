/** The user's statistics page (src/pages/UserStats.tsx): the download
    counts, the login count and the redirect of signed-out visitors. */
module UserStats {
  import opened Wrappers
  import opened Schema
  import AuthContext

  /** A `user_downloads` row (the joined offer columns are display only). */
  datatype DownloadRow = DownloadRow(offerId: string, downloadedAt: int)

  /** `downloads?.length || 0`; `None` while the query has no data. */
  function TotalDownloads(downloads: Option<seq<DownloadRow>>): (n: nat)
    ensures downloads.None? ==> n == 0
    ensures downloads.Some? ==> n == |downloads.value|
  {
    if downloads.None? then 0 else |downloads.value|
  }

  /** The offer ids of the rows, as a set. */
  function OfferIds(rows: seq<DownloadRow>): (ids: set<string>)
    ensures forall i | 0 <= i < |rows| :: rows[i].offerId in ids
    ensures forall id | id in ids :: exists i | 0 <= i < |rows| :: rows[i].offerId == id
  {
    if rows == [] then {}
    else
      var rest := OfferIds(rows[1..]);
      assert forall i | 1 <= i < |rows| :: rows[i] == rows[1..][i - 1];
      {rows[0].offerId} + rest
  }

  /** `new Set(downloads.map(d => d.offer_id)).size`, 0 without data. */
  function UniqueDownloads(downloads: Option<seq<DownloadRow>>): nat {
    if downloads.None? then 0 else |OfferIds(downloads.value)|
  }

  /** No offer is downloaded twice. */
  predicate DistinctOffers(rows: seq<DownloadRow>) {
    forall i, j | 0 <= i < j < |rows| :: rows[i].offerId != rows[j].offerId
  }

  /** Dropping the first row keeps the rows distinct. */
  lemma DistinctTail(rows: seq<DownloadRow>)
    requires rows != [] && DistinctOffers(rows)
    ensures DistinctOffers(rows[1..])
  {
    var rest := rows[1..];
    forall i, j | 0 <= i < j < |rest| ensures rest[i].offerId != rest[j].offerId {
      assert rest[i] == rows[i + 1] && rest[j] == rows[j + 1];
    }
  }

  /** A first row whose offer is new keeps distinct rows distinct. */
  lemma DistinctCons(rows: seq<DownloadRow>)
    requires rows != [] && DistinctOffers(rows[1..]) && rows[0].offerId !in OfferIds(rows[1..])
    ensures DistinctOffers(rows)
  {
    var rest := rows[1..];
    forall i, j | 0 <= i < j < |rows| ensures rows[i].offerId != rows[j].offerId {
      assert rows[j] == rest[j - 1];
      if i > 0 {
        assert rows[i] == rest[i - 1];
      }
    }
  }

  /** A first row whose offer repeats later adds no id and breaks distinctness. */
  lemma RepeatedFirst(rows: seq<DownloadRow>)
    requires rows != [] && rows[0].offerId in OfferIds(rows[1..])
    ensures OfferIds(rows) == OfferIds(rows[1..]) && !DistinctOffers(rows)
  {
    var rest := rows[1..];
    var i :| 0 <= i < |rest| && rest[i].offerId == rows[0].offerId;
    assert rows[0].offerId == rows[i + 1].offerId;
  }

  /** There are at most as many distinct offers as rows, and exactly as many
      iff no offer appears twice. */
  lemma {:induction false} OfferIdsSize(rows: seq<DownloadRow>)
    ensures |OfferIds(rows)| <= |rows|
    ensures |OfferIds(rows)| == |rows| <==> DistinctOffers(rows)
  {
    if rows != [] {
      var rest := rows[1..];
      OfferIdsSize(rest);
      var x := rows[0].offerId;
      if x in OfferIds(rest) {
        RepeatedFirst(rows);
      } else {
        assert OfferIds(rows) == {x} + OfferIds(rest);
        assert |OfferIds(rows)| == |OfferIds(rest)| + 1;
        if DistinctOffers(rows) {
          DistinctTail(rows);
        }
        if DistinctOffers(rest) {
          DistinctCons(rows);
        }
      }
    }
  }

  /** The unique count never exceeds the total, and equals it iff no offer
      was downloaded twice. */
  lemma UniqueAtMostTotal(downloads: Option<seq<DownloadRow>>)
    ensures UniqueDownloads(downloads) <= TotalDownloads(downloads)
    ensures downloads.Some? ==>
      (UniqueDownloads(downloads) == TotalDownloads(downloads) <==> DistinctOffers(downloads.value))
  {
    if downloads.Some? {
      OfferIdsSize(downloads.value);
    }
  }

  /** `profile?.login_count || 0`. */
  function LoginCount(profile: Option<Profile>): (n: int)
    ensures profile.None? ==> n == 0
    ensures profile.Some? ==> n == profile.value.loginCount
  {
    if profile.None? || profile.value.loginCount == 0 then 0 else profile.value.loginCount
  }

  datatype View = Loader | Blank | StatsPage

  /** What the page renders: the loader while the context loads, nothing
      without a user, the statistics otherwise. */
  function PageView(loading: bool, user: Option<AuthContext.AuthUser>): View {
    if loading then Loader else if user.None? then Blank else StatsPage
  }

  /** The effect's navigation target, if any. */
  function Redirect(loading: bool, user: Option<AuthContext.AuthUser>): Option<string> {
    if !loading && user.None? then Some("/auth") else None
  }

  /** The page sends a visitor to the login page exactly when it renders
      nothing: loading is over and nobody is signed in. */
  lemma RedirectIffBlank(loading: bool, user: Option<AuthContext.AuthUser>)
    ensures Redirect(loading, user).Some? <==> PageView(loading, user) == Blank
    ensures Redirect(loading, user).Some? <==> !loading && user.None?
    ensures Redirect(loading, user).Some? ==> Redirect(loading, user).value == "/auth"
  {
  }
}
