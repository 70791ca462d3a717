/** The public offer list (src/components/OffersSection.tsx): the media gallery
    of an offer and its cyclic navigation, and the download action with its
    bookkeeping.

    `encodeURIComponent` is an arbitrary function passed in; the signed-in user,
    the profile lookup and the outcome of each write are inputs. */
module OffersSection {
  import opened Wrappers
  import opened Schema
  import JsText
  import Arith

  datatype MediaKind = Image | Video

  datatype MediaItem = MediaItem(url: string, kind: MediaKind)

  /** The columns of an `offers` row this component reads. `mediaUrls` is
      `None` when the column is null or not an array. */
  datatype Offer = Offer(
    id: string,
    title: string,
    fileUrl: Option<string>,
    fileFormat: Option<string>,
    mediaUrls: Option<seq<MediaItem>>,
    imagePreviewUrl: Option<string>,
    mediaType: Option<string>,
    mediaUrl: Option<string>)

  // ---------------------------------------------------------------------------
  // The gallery

  predicate HasUrl(items: seq<MediaItem>, url: string) {
    exists i | 0 <= i < |items| :: items[i].url == url
  }

  predicate DistinctUrls(items: seq<MediaItem>) {
    forall i, j | 0 <= i < j < |items| :: items[i].url != items[j].url
  }

  function BaseItems(o: Offer): seq<MediaItem> {
    o.mediaUrls.GetOr([])
  }

  /** The preview image is put in front when present and not already listed. */
  predicate PreviewAdded(o: Offer) {
    Present(o.imagePreviewUrl) && !HasUrl(BaseItems(o), o.imagePreviewUrl.value)
  }

  function WithPreview(o: Offer): (front: seq<MediaItem>)
    ensures var k := if PreviewAdded(o) then 1 else 0;
      |front| == k + |BaseItems(o)| && front[k..] == BaseItems(o)
    ensures Present(o.imagePreviewUrl) ==> HasUrl(front, o.imagePreviewUrl.value)
    ensures forall i | 0 <= i < |front| ::
      front[i] in BaseItems(o) || (Present(o.imagePreviewUrl) && front[i] == MediaItem(o.imagePreviewUrl.value, Image))
  {
    if PreviewAdded(o) then
      var front := [MediaItem(o.imagePreviewUrl.value, Image)] + BaseItems(o);
      assert front[0].url == o.imagePreviewUrl.value;
      assert front[1..] == BaseItems(o);
      front
    else BaseItems(o)
  }

  predicate IsVideoOffer(o: Offer) {
    o.mediaType == Some("video") && Present(o.mediaUrl)
  }

  /** The video is put last when the offer is a video one and its URL is not
      already listed (the preview included). */
  predicate VideoAdded(o: Offer) {
    IsVideoOffer(o) && !HasUrl(WithPreview(o), o.mediaUrl.value)
  }

  /** The gallery of an offer: the listed media in their order, the preview
      image in front, the video at the back, each added only when new. */
  function MediaItems(o: Offer): (items: seq<MediaItem>)
    ensures |items| <= |BaseItems(o)| + 2
    ensures var k := if PreviewAdded(o) then 1 else 0;
      k + |BaseItems(o)| <= |items| && items[k..k + |BaseItems(o)|] == BaseItems(o)
    ensures Present(o.imagePreviewUrl) ==> HasUrl(items, o.imagePreviewUrl.value)
    ensures IsVideoOffer(o) ==> HasUrl(items, o.mediaUrl.value)
    ensures forall i | 0 <= i < |items| ::
      items[i] in BaseItems(o)
      || (Present(o.imagePreviewUrl) && items[i] == MediaItem(o.imagePreviewUrl.value, Image))
      || (IsVideoOffer(o) && items[i] == MediaItem(o.mediaUrl.value, Video))
  {
    var front := WithPreview(o);
    if VideoAdded(o) then
      var items := front + [MediaItem(o.mediaUrl.value, Video)];
      assert items[|items| - 1].url == o.mediaUrl.value;
      assert items[..|front|] == front;
      items
    else front
  }

  /** The gallery adds no URL twice: when the listed media have distinct URLs,
      so does the whole gallery. */
  lemma MediaItemsDistinct(o: Offer)
    requires DistinctUrls(BaseItems(o))
    ensures DistinctUrls(MediaItems(o))
  {
    var base := BaseItems(o);
    var front := WithPreview(o);
    assert DistinctUrls(front) by {
      if PreviewAdded(o) {
        forall i, j | 0 <= i < j < |front| ensures front[i].url != front[j].url {
          if i == 0 {
            assert front[j] == base[j - 1];
          } else {
            assert front[i] == base[i - 1] && front[j] == base[j - 1];
          }
        }
      }
    }
    if VideoAdded(o) {
      var items := front + [MediaItem(o.mediaUrl.value, Video)];
      forall i, j | 0 <= i < j < |items| ensures items[i].url != items[j].url {
        if j == |items| - 1 {
          assert items[i] == front[i];
        } else {
          assert items[i] == front[i] && items[j] == front[j];
        }
      }
    }
  }

  /** `getMediaItems`: builds the list with a push of the listed media, an
      unshift of the preview and a push of the video. */
  method GetMediaItems(o: Offer) returns (items: seq<MediaItem>)
    ensures items == MediaItems(o)
  {
    items := [];
    if o.mediaUrls.Some? {
      items := items + o.mediaUrls.value;
    }
    assert items == BaseItems(o);
    if Present(o.imagePreviewUrl) && !HasUrl(items, o.imagePreviewUrl.value) {
      items := [MediaItem(o.imagePreviewUrl.value, Image)] + items;
    }
    assert items == WithPreview(o);
    if o.mediaType == Some("video") && Present(o.mediaUrl) && !HasUrl(items, o.mediaUrl.value) {
      items := items + [MediaItem(o.mediaUrl.value, Video)];
    }
  }

  // ---------------------------------------------------------------------------
  // Cyclic navigation

  function NextIndex(i: int, n: int): int {
    if i == n - 1 then 0 else i + 1
  }

  function PrevIndex(i: int, n: int): int {
    if i == 0 then n - 1 else i - 1
  }

  /** For a gallery of n >= 1 items, next and previous stay in range, wrap at
      both ends and undo each other. */
  lemma NavigationWraps(i: int, n: int)
    requires 1 <= n && 0 <= i < n
    ensures 0 <= NextIndex(i, n) < n && 0 <= PrevIndex(i, n) < n
    ensures NextIndex(i, n) == (i + 1) % n
    ensures PrevIndex(i, n) == (i + n - 1) % n
    ensures PrevIndex(NextIndex(i, n), n) == i && NextIndex(PrevIndex(i, n), n) == i
  {
  }

  /** `k` presses of "next". */
  function NextTimes(i: int, n: int, k: nat): int {
    if k == 0 then i else NextIndex(NextTimes(i, n, k - 1), n)
  }

  /** Pressing "next" k times moves k places round the gallery, so n presses
      come back to the start. */
  lemma {:induction false} NextTimesRotates(i: int, n: int, k: nat)
    requires 1 <= n && 0 <= i < n
    ensures NextTimes(i, n, k) == (i + k) % n
  {
    if k > 0 {
      NextTimesRotates(i, n, k - 1);
      var m := NextTimes(i, n, k - 1);
      assert NextTimes(i, n, k) == NextIndex(m, n);
      Arith.ModStep(i + k - 1, n);
    }
  }

  /** The state of the offer dialog: the offer shown and the gallery position. */
  class OfferViewer {
    var selected: Option<Offer>
    var index: int

    /** The position is inside the gallery whenever there is one to show. */
    ghost predicate Valid()
      reads this
    {
      selected.Some? && |MediaItems(selected.value)| > 0 ==> 0 <= index < |MediaItems(selected.value)|
    }

    constructor ()
      ensures selected.None? && index == 0 && Valid()
    {
      selected := None;
      index := 0;
    }

    /** `handleOpenOffer`: show the offer from its first item. */
    method Open(o: Offer)
      modifies this
      ensures selected == Some(o) && index == 0 && Valid()
    {
      selected := Some(o);
      index := 0;
    }

    /** `handleNextMedia`: nothing without an offer. */
    method Next()
      requires Valid()
      modifies this
      ensures selected == old(selected) && Valid()
      ensures selected.None? ==> index == old(index)
      ensures selected.Some? ==> index == NextIndex(old(index), |MediaItems(selected.value)|)
    {
      if selected.None? {
        return;
      }
      var items := GetMediaItems(selected.value);
      index := if index == |items| - 1 then 0 else index + 1;
    }

    /** `handlePrevMedia`: nothing without an offer. */
    method Prev()
      requires Valid()
      modifies this
      ensures selected == old(selected) && Valid()
      ensures selected.None? ==> index == old(index)
      ensures selected.Some? ==> index == PrevIndex(old(index), |MediaItems(selected.value)|)
    {
      if selected.None? {
        return;
      }
      var items := GetMediaItems(selected.value);
      index := if index == 0 then |items| - 1 else index - 1;
    }
  }

  // ---------------------------------------------------------------------------
  // Downloads

  /** The saved file's name: the title, plus "." and the format when there is one. */
  function DownloadFileName(title: string, fileFormat: Option<string>): (name: string)
    ensures Present(fileFormat) ==> name == title + "." + fileFormat.value
    ensures !Present(fileFormat) ==> name == title
  {
    if Present(fileFormat) then title + "." + fileFormat.value else title
  }

  /** The file URL with a `download=` query parameter appended, joined by "&"
      when the URL already has a query and by "?" otherwise. */
  function DownloadUrl(fileUrl: string, name: string, encode: string -> string): (url: string)
    ensures |fileUrl| < |url|
    ensures url[..|fileUrl|] == fileUrl
    ensures url[|fileUrl|] == if JsText.Contains(fileUrl, "?") then '&' else '?'
    ensures url[|fileUrl| + 1..] == "download=" + encode(name)
  {
    fileUrl + (if JsText.Contains(fileUrl, "?") then "&" else "?") + "download=" + encode(name)
  }

  /** The download URL always carries a query string. */
  lemma DownloadUrlHasQuery(fileUrl: string, name: string, encode: string -> string)
    ensures JsText.Contains(DownloadUrl(fileUrl, name, encode), "?")
  {
    var url := DownloadUrl(fileUrl, name, encode);
    if JsText.Contains(fileUrl, "?") {
      var i :| 0 <= i <= |fileUrl| && "?" <= fileUrl[i..];
      assert url[i] == fileUrl[i];
      assert "?" <= url[i..];
    } else {
      assert "?" <= url[|fileUrl|..];
    }
  }

  datatype DownloadLink = DownloadLink(url: string, fileName: string)

  /** A row of `user_downloads`. */
  datatype DownloadRow = DownloadRow(userId: string, offerId: string)

  /** The tables a download writes: the per-offer counters, the download rows
      and the logs. */
  datatype DownloadTables = DownloadTables(counts: map<string, int>, downloads: seq<DownloadRow>, logs: seq<LogEntry>)

  datatype DownloadEnv = DownloadEnv(
    currentUser: Option<string>,
    username: Option<string>,        // the user's profile name, when the lookup finds one
    counterFails: bool,
    recordFails: bool,
    logFails: bool,
    encode: string -> string)

  function DownloadMessage(title: string, username: Option<string>): string {
    "Téléchargement de \"" + title + "\" par " + (if Present(username) then username.value else "Utilisateur")
  }

  function Bump(counts: map<string, int>, id: string): map<string, int> {
    if id in counts then counts[id := counts[id] + 1] else counts
  }

  /** `handleDownload`'s effect on the tables, and the link it follows. */
  function DownloadSpec(t: DownloadTables, o: Offer, env: DownloadEnv): (Option<DownloadLink>, DownloadTables) {
    if !Present(o.fileUrl) then (None, t)
    else
      var counts := if env.counterFails then t.counts else Bump(t.counts, o.id);
      var downloads := if env.currentUser.Some? && !env.recordFails
                       then t.downloads + [DownloadRow(env.currentUser.value, o.id)] else t.downloads;
      var logs := if env.currentUser.Some? && !env.logFails
                  then t.logs + [LogEntry(env.currentUser, "download", DownloadMessage(o.title, env.username))]
                  else t.logs;
      var name := DownloadFileName(o.title, o.fileFormat);
      (Some(DownloadLink(DownloadUrl(o.fileUrl.value, name, env.encode), name)), DownloadTables(counts, downloads, logs))
  }

  class DownloadService {
    var counts: map<string, int>
    var downloads: seq<DownloadRow>
    var logs: seq<LogEntry>
    var downloadingId: Option<string>

    function Tables(): DownloadTables
      reads this
    {
      DownloadTables(counts, downloads, logs)
    }

    constructor (t: DownloadTables)
      ensures Tables() == t && downloadingId.None?
    {
      counts, downloads, logs := t.counts, t.downloads, t.logs;
      downloadingId := None;
    }

    method HandleDownload(o: Offer, env: DownloadEnv) returns (link: Option<DownloadLink>)
      modifies this
      ensures (link, Tables()) == DownloadSpec(old(Tables()), o, env)
      ensures downloadingId == old(downloadingId) || downloadingId.None?
    {
      if !Present(o.fileUrl) {
        return None;
      }
      ghost var t0 := Tables();
      downloadingId := Some(o.id);
      if !env.counterFails {
        counts := Bump(counts, o.id);
      }
      if env.currentUser.Some? {
        if !env.recordFails {
          downloads := downloads + [DownloadRow(env.currentUser.value, o.id)];
        }
        if !env.logFails {
          logs := logs + [LogEntry(env.currentUser, "download", DownloadMessage(o.title, env.username))];
        }
      }
      var name := DownloadFileName(o.title, o.fileFormat);
      link := Some(DownloadLink(DownloadUrl(o.fileUrl.value, name, env.encode), name));
      assert Tables() == DownloadSpec(t0, o, env).1;
      assert link == DownloadSpec(t0, o, env).0;
      downloadingId := None;
    }
  }

  /** An offer without a file is refused before any counter, download row or
      log entry is written. */
  lemma NoFileNoEffect(t: DownloadTables, o: Offer, env: DownloadEnv)
    requires !Present(o.fileUrl)
    ensures DownloadSpec(t, o, env) == (None, t)
  {
  }

  /** A failed counter increment does not stop the download: the same link is
      followed and the same rows are written; only the counter is left as it was. */
  lemma CounterFailureStillDownloads(t: DownloadTables, o: Offer, env: DownloadEnv)
    requires Present(o.fileUrl) && env.counterFails
    ensures var (link, t') := DownloadSpec(t, o, env);
      var (link2, t2) := DownloadSpec(t, o, env.(counterFails := false));
      && link.Some? && link == link2
      && t'.counts == t.counts
      && t'.downloads == t2.downloads && t'.logs == t2.logs
  {
  }

  /** A download by a signed-in user, with every write succeeding, adds one to
      the offer's counter, records one download row and one log entry. */
  lemma SignedInDownload(t: DownloadTables, o: Offer, env: DownloadEnv)
    requires Present(o.fileUrl) && env.currentUser.Some?
    requires !env.counterFails && !env.recordFails && !env.logFails && o.id in t.counts
    ensures var t' := DownloadSpec(t, o, env).1;
      && t'.counts[o.id] == t.counts[o.id] + 1
      && (forall id | id in t.counts && id != o.id :: id in t'.counts && t'.counts[id] == t.counts[id])
      && t'.downloads == t.downloads + [DownloadRow(env.currentUser.value, o.id)]
      && |t'.logs| == |t.logs| + 1 && t'.logs[|t.logs|].actionType == "download"
  {
  }
}
