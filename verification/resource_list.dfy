/**
 * The resource cards of `src/components/ResourceList.tsx`: the icon and the
 * action button a resource gets from its type, what its button does when
 * clicked, and which optional details the card shows. The network request
 * and the browser calls are left to the caller: a download's response is
 * given as whether it was ok.
 */
module ResourceList {
  import opened Options
  import opened Strings
  import opened Resources

  /** The lucide icons a card can show. */
  datatype Icon = FileTextIcon | VideoIcon

  /** The card's button: download the PDF, watch the video, or "Open". */
  datatype Action = DownloadPdf | WatchVideo | Open

  /** The request `handleDownload` issues and the name it saves the file under. */
  datatype DownloadRequest = DownloadRequest(path: string, filename: string)

  /** What a click on the download button ends in. */
  datatype DownloadOutcome =
    | NotRequested
    | Failed(request: DownloadRequest)
    | Saved(request: DownloadRequest)

  /** The visible effect of clicking a card's button. */
  datatype ClickEffect = Download(outcome: DownloadOutcome) | OpenTab(url: string) | NoEffect

  /** `getResourceIcon`: `FileText` for anything but a video. */
  function IconFor(kind: ResourceType): (icon: Icon)
    ensures icon == VideoIcon <==> kind == Video
  {
    match kind
    case Pdf => FileTextIcon
    case Video => VideoIcon
    case _ => FileTextIcon
  }

  /** The button chosen by the `type === 'pdf' ? … : type === 'video' ? … : …` chain. */
  function ActionFor(kind: ResourceType): (a: Action)
    ensures a.DownloadPdf? <==> kind.Pdf?
    ensures a.WatchVideo? <==> kind.Video?
    ensures a.Open? <==> kind.Link?
  {
    if kind == Pdf then DownloadPdf else if kind == Video then WatchVideo else Open
  }

  /** The route prefix of the download API in `locale`. */
  function ApiPrefix(locale: string): string {
    "/" + locale + "/api/download/"
  }

  /** The path `/<locale>/api/download/<id>` fetched to count and serve a download: the id follows the API prefix. */
  function RequestPath(locale: string, id: string): (path: string)
    ensures StartsWith(path, ApiPrefix(locale))
    ensures path[|ApiPrefix(locale)|..] == id
  {
    var path := ApiPrefix(locale) + id;
    assert path[..|ApiPrefix(locale)|] == ApiPrefix(locale);
    assert path[|ApiPrefix(locale)|..] == id;
    path
  }

  /** `<id>.pdf`, the name the file is saved under: a PDF name from which the id reads back. */
  function SavedName(id: string): (name: string)
    ensures EndsWith(name, ".pdf")
    ensures |name| == |id| + 4 && name[..|id|] == id
  {
    var name := id + ".pdf";
    assert name[|id|..] == ".pdf";
    assert name[..|id|] == id;
    name
  }

  /**
   * The request `handleDownload` makes for a resource: only a `pdf` with a
   * non-empty `file` gets one.
   */
  function DownloadRequestFor(locale: string, r: Resource): (req: Option<DownloadRequest>)
    ensures req.Some? <==> r.kind == Pdf && Truthy(r.file)
  {
    if r.kind == Pdf && Truthy(r.file) then Some(DownloadRequest(RequestPath(locale, r.id), SavedName(r.id)))
    else None
  }

  /** `handleDownload`, with `responseOk` standing for `response.ok` of the fetch. */
  function HandleDownload(locale: string, r: Resource, responseOk: bool): (outcome: DownloadOutcome)
    ensures outcome.NotRequested? <==> DownloadRequestFor(locale, r).None?
    ensures outcome.Saved? <==> DownloadRequestFor(locale, r).Some? && responseOk
    ensures !outcome.NotRequested? ==> outcome.request == DownloadRequestFor(locale, r).value
  {
    match DownloadRequestFor(locale, r)
    case None => NotRequested
    case Some(req) => if responseOk then Saved(req) else Failed(req)
  }

  /** `handleVideoClick`: the URL opened in a new tab, when the resource has a non-empty one. */
  function HandleVideoClick(r: Resource): (tab: Option<string>)
    ensures tab.Some? <==> Truthy(r.url)
    ensures tab.Some? ==> tab == r.url
  {
    if Truthy(r.url) then r.url else None
  }

  /**
   * A click on the card's button: a `pdf` card runs `handleDownload`, a
   * `video` card can only open a tab, and the "Open" button has no handler.
   */
  function Click(locale: string, r: Resource, responseOk: bool): (e: ClickEffect)
    ensures e.Download? <==> r.kind == Pdf
    ensures e.Download? ==> e.outcome == HandleDownload(locale, r, responseOk)
    ensures e.OpenTab? ==> r.kind == Video
    ensures r.kind == Link ==> e.NoEffect?
  {
    match ActionFor(r.kind)
    case DownloadPdf => Download(HandleDownload(locale, r, responseOk))
    case WatchVideo => (match HandleVideoClick(r) case Some(u) => OpenTab(u) case None => NoEffect)
    case Open => NoEffect
  }

  /** What a card shows besides its texts. */
  datatype Card = Card(icon: Icon, action: Action, duration: Option<string>, downloadCount: Option<int>)

  /**
   * One card: the video icon for videos only, the button the kind calls
   * for, the duration when it is a non-empty string, and the download
   * count whenever it is defined, zero included.
   */
  function RenderCard(r: Resource): (c: Card)
    ensures c.icon == VideoIcon <==> r.kind.Video?
    ensures c.action.DownloadPdf? <==> r.kind.Pdf?
    ensures c.action.WatchVideo? <==> r.kind.Video?
    ensures c.action.Open? <==> r.kind.Link?
    ensures c.duration.Some? <==> Truthy(r.duration)
    ensures c.duration.Some? ==> c.duration == r.duration
    ensures c.downloadCount == r.downloadCount
  {
    Card(IconFor(r.kind), ActionFor(r.kind), if Truthy(r.duration) then r.duration else None, r.downloadCount)
  }

  /* ---------------- Lemmas ---------------- */

  /** The icon is the video icon exactly on the cards whose button plays a video. */
  lemma IconMatchesAction(kind: ResourceType)
    ensures IconFor(kind) == VideoIcon <==> ActionFor(kind) == WatchVideo
  {
  }

  /** Within one locale, distinct resources are requested at distinct paths. */
  lemma RequestPathInjective(locale: string, id1: string, id2: string)
    requires RequestPath(locale, id1) == RequestPath(locale, id2)
    ensures id1 == id2
  {
  }

  /** Distinct resources are saved under distinct names. */
  lemma SavedNameInjective(id1: string, id2: string)
    requires SavedName(id1) == SavedName(id2)
    ensures id1 == id2
  {
  }

  /** A file is saved only for a `pdf` resource with a file, after an ok response, and under `<id>.pdf`. */
  lemma SavedOnlyWhenOk(locale: string, r: Resource, responseOk: bool)
    ensures var outcome := Click(locale, r, responseOk);
      outcome.Download? && outcome.outcome.Saved? <==> r.kind == Pdf && Truthy(r.file) && responseOk
    ensures var outcome := Click(locale, r, responseOk);
      outcome.Download? && outcome.outcome.Saved? ==>
        outcome.outcome.request == DownloadRequest(RequestPath(locale, r.id), SavedName(r.id))
  {
  }

  /** Only a video card opens a tab, and only for its own non-empty URL. */
  lemma TabOnlyForVideos(locale: string, r: Resource, responseOk: bool)
    ensures Click(locale, r, responseOk).OpenTab? <==> r.kind == Video && Truthy(r.url)
    ensures Click(locale, r, responseOk).OpenTab? ==> Some(Click(locale, r, responseOk).url) == r.url
  {
  }

  /** The "Open" button of a link resource does nothing, whatever its URL. */
  lemma OpenButtonInert(locale: string, r: Resource, responseOk: bool)
    requires r.kind == Link
    ensures Click(locale, r, responseOk) == NoEffect
  {
  }
}
