/**
 * The image downloader (`shopify_to_feeds/scraper/image_downloader.py`):
 * the distinct image URLs of a list of feed items, one download per URL,
 * and the map from each URL that downloaded to the file name it was saved
 * under.
 *
 * The network is a parameter: `fetch(url)` says whether a GET of `url`
 * succeeds. Python's `hash(url)`, randomised per process, is the parameter
 * `hashOf`. Writing the files and creating the folder are not modelled.
 */
module Images {
  import opened Values
  import opened Text
  import opened Numbers
  import opened Urls

  /** The fields of a feed item the downloader reads. */
  datatype ItemImages = ItemImages(
    main: Option<string>,               // `product[image_field]`; `None` when absent or `None`
    additional: Option<seq<string>>)    // `product["additional_image_link"]`; `None` when absent

  const ImageModulus := 10000

  /** The file name a downloaded URL is saved under: the last path segment, else a synthetic one. */
  function FileName(hashOf: string -> int, url: string): (r: string)
    ensures r != []
    ensures LastSegment(url) != [] ==> r == LastSegment(url)
    ensures LastSegment(url) == [] ==> StartsWith(r, "image_") && EndsWith(r, ".jpg")
  {
    var name := LastSegment(url);
    if name != [] then name
    else
      var r := "image_" + NatToString(hashOf(url) % ImageModulus) + ".jpg";
      assert r[..6] == "image_";
      assert r[|r| - 4..] == ".jpg";
      r
  }

  /** The synthetic name carries `hash(url) % 10000`, which is never negative. */
  lemma SyntheticName(hashOf: string -> int, url: string)
    requires LastSegment(url) == []
    ensures exists n: nat :: n < ImageModulus && FileName(hashOf, url) == "image_" + NatToString(n) + ".jpg"
  {
    var n: nat := hashOf(url) % ImageModulus;
    assert FileName(hashOf, url) == "image_" + NatToString(n) + ".jpg";
  }

  /**
   * `download_image(url, folder)`: `None` for an empty URL (no request is
   * made) and for a failed request; the file name otherwise.
   */
  function DownloadImage(fetch: string -> bool, hashOf: string -> int, url: string): (r: Option<string>)
    ensures url == [] ==> r.None?
    ensures r.Some? <==> url != [] && fetch(url)
    ensures r.Some? ==> r.value == FileName(hashOf, url) && r.value != []
  {
    if url == [] then None
    else if !fetch(url) then None
    else Some(FileName(hashOf, url))
  }

  /** Whether an item contributes `u` to the URL set: a truthy main image, or any additional link. */
  predicate Offers(it: ItemImages, u: string)
  {
    (Truthy(it.main) && it.main.value == u) || (it.additional.Some? && u in it.additional.value)
  }

  /** `i % 10 == 0 or i == total`: when the `i`-th completion is reported. */
  predicate Reported(i: nat, total: nat)
  {
    i % 10 == 0 || i == total
  }

  /**
   * After `done` completions out of `total`, the reports are exactly the
   * counts up to `done` that `Reported` selects, in increasing order.
   */
  predicate ReportLog(reported: seq<nat>, done: nat, total: nat)
  {
    (forall i :: 0 <= i < |reported| ==> 1 <= reported[i] <= done && Reported(reported[i], total))
    && (forall n: nat :: 1 <= n <= done && Reported(n, total) ==> n in reported)
    && (forall a, b :: 0 <= a < b < |reported| ==> reported[a] < reported[b])
  }

  /** One more completion: it is reported exactly when `Reported` selects it. */
  lemma ReportStep(reported: seq<nat>, done: nat, total: nat)
    requires ReportLog(reported, done, total)
    ensures ReportLog(if Reported(done + 1, total) then reported + [done + 1] else reported, done + 1, total)
  {
    var next := if Reported(done + 1, total) then reported + [done + 1] else reported;
    forall n: nat | 1 <= n <= done + 1 && Reported(n, total)
      ensures n in next
    {
      if n <= done {
        assert n in reported;
      }
    }
  }

  predicate Distinct(s: seq<string>)
  {
    forall a, b :: 0 <= a < b < |s| ==> s[a] != s[b]
  }

  /** The URLs handed to tasks so far, and those still waiting, split the URL set. */
  ghost predicate Pending(tasks: seq<string>, remaining: set<string>, urls: set<string>)
  {
    remaining <= urls
    && (forall u :: u in tasks <==> u in urls && u !in remaining)
    && Distinct(tasks) && |tasks| + |remaining| == |urls|
  }

  lemma PendingStep(tasks: seq<string>, remaining: set<string>, urls: set<string>, url: string)
    requires Pending(tasks, remaining, urls) && url in remaining
    ensures Pending(tasks + [url], remaining - {url}, urls)
  {
    assert url !in tasks;
  }

  /** Before the first completion nothing is pending elsewhere, recorded or reported. */
  lemma Started(urls: set<string>, download: string -> Option<string>, total: nat)
    ensures Pending([], urls, urls) && Results(map[], [], download) && ReportLog([], 0, total)
  {
  }

  /** One task per URL that some item offers, none twice. */
  lemma TasksOffered(tasks: seq<string>, urls: set<string>, items: seq<ItemImages>)
    requires Pending(tasks, {}, urls)
    requires forall u :: u in urls <==> exists i :: 0 <= i < |items| && Offers(items[i], u)
    ensures Distinct(tasks)
    ensures forall u :: u in tasks <==> exists i :: 0 <= i < |items| && Offers(items[i], u)
  {
  }

  /** Once no URL is waiting, there was one task per URL. */
  lemma Finished(tasks: seq<string>, remaining: set<string>, urls: set<string>)
    requires Pending(tasks, remaining, urls) && remaining == {}
    ensures |tasks| == |urls| && Pending(tasks, {}, urls)
  {
  }

  /** The result map once every download in `tasks` completed: each URL whose download gave a name, to that name. */
  ghost predicate Results(downloaded: map<string, string>, tasks: seq<string>, download: string -> Option<string>)
  {
    (forall u :: u in downloaded <==> u in tasks && download(u).Some? && download(u).value != [])
    && (forall u :: u in downloaded ==> downloaded[u] == download(u).value)
  }

  lemma ResultStep(downloaded: map<string, string>, tasks: seq<string>, download: string -> Option<string>, url: string)
    requires Results(downloaded, tasks, download)
    ensures var f := download(url);
      Results(if f.Some? && f.value != [] then downloaded[url := f.value] else downloaded, tasks + [url], download)
  {
  }

  /** `download_image` as a function of the URL. */
  function DownloadOf(fetch: string -> bool, hashOf: string -> int): string -> Option<string>
  {
    u => DownloadImage(fetch, hashOf, u)
  }

  /**
   * What the result map holds: exactly the non-empty URLs whose request
   * succeeded, each mapped to its file name.
   */
  lemma ResultsMeaning(downloaded: map<string, string>, tasks: seq<string>, fetch: string -> bool, hashOf: string -> int)
    requires Results(downloaded, tasks, DownloadOf(fetch, hashOf))
    ensures forall u :: u in downloaded <==> u in tasks && u != [] && fetch(u)
    ensures forall u :: u in downloaded ==> downloaded[u] == FileName(hashOf, u)
  {
    forall u
      ensures (u in downloaded <==> u in tasks && u != [] && fetch(u))
      ensures u in downloaded ==> downloaded[u] == FileName(hashOf, u)
    {
      assert DownloadOf(fetch, hashOf)(u) == DownloadImage(fetch, hashOf, u);
    }
  }

  class ImageDownloader {
    const maxWorkers: int

    constructor(maxWorkersArg: int)
      ensures maxWorkers == maxWorkersArg
    {
      maxWorkers := maxWorkersArg;
    }

    /** The unique image URLs of `items`, gathered item by item. */
    method CollectUrls(items: seq<ItemImages>) returns (urls: set<string>)
      ensures forall u :: u in urls <==> exists i :: 0 <= i < |items| && Offers(items[i], u)
    {
      urls := {};
      var k := 0;
      while k < |items|
        invariant k <= |items|
        invariant forall u :: u in urls <==> exists i :: 0 <= i < k && Offers(items[i], u)
      {
        var it := items[k];
        if Truthy(it.main) {
          urls := urls + {it.main.value};
        }
        if it.additional.Some? {
          var links := it.additional.value;
          var j := 0;
          ghost var before := urls;
          while j < |links|
            invariant j <= |links|
            invariant urls == before + set x | x in links[..j]
          {
            urls := urls + {links[j]};
            assert links[..j + 1] == links[..j] + [links[j]];
            j := j + 1;
          }
          assert links[..j] == links;
        }
        k := k + 1;
      }
    }

    /**
     * `download_product_images(products, folder, image_field)`: one download
     * task per distinct URL, in the order those downloads complete (`tasks`); the
     * result maps exactly the URLs whose download gave a file name to that
     * name. `reported` lists the completion counts at which progress is
     * reported.
     */
    method DownloadProductImages(items: seq<ItemImages>, fetch: string -> bool, hashOf: string -> int)
      returns (downloaded: map<string, string>, tasks: seq<string>, reported: seq<nat>)
      ensures Distinct(tasks)
      ensures forall u :: u in tasks <==> exists i :: 0 <= i < |items| && Offers(items[i], u)
      ensures Results(downloaded, tasks, DownloadOf(fetch, hashOf))
      ensures ReportLog(reported, |tasks|, |tasks|)
    {
      var urls := CollectUrls(items);
      downloaded, tasks, reported := map[], [], [];
      if |urls| == 0 {
        assert urls == {};
        Started(urls, DownloadOf(fetch, hashOf), 0);
        TasksOffered(tasks, urls, items);
        return;
      }
      downloaded, tasks, reported := DownloadAll(urls, DownloadOf(fetch, hashOf));
      TasksOffered(tasks, urls, items);
    }

    /** The executor's loop: one task per URL of `urls`, each result recorded as it completes. */
    method DownloadAll(urls: set<string>, download: string -> Option<string>)
      returns (downloaded: map<string, string>, tasks: seq<string>, reported: seq<nat>)
      ensures Pending(tasks, {}, urls)
      ensures Results(downloaded, tasks, download)
      ensures ReportLog(reported, |tasks|, |tasks|)
    {
      downloaded, tasks, reported := map[], [], [];
      var total := |urls|;
      var remaining := urls;
      Started(urls, download, total);
      while remaining != {}
        invariant Pending(tasks, remaining, urls)
        invariant Results(downloaded, tasks, download)
        invariant ReportLog(reported, |tasks|, total)
        decreases |remaining|
      {
        var url :| url in remaining;
        PendingStep(tasks, remaining, urls, url);
        ResultStep(downloaded, tasks, download, url);
        ReportStep(reported, |tasks|, total);
        remaining := remaining - {url};
        downloaded, tasks, reported := Complete(downloaded, tasks, reported, total, download, url);
      }
      Finished(tasks, remaining, urls);
    }

    /** One completed task: its URL recorded, its file name stored, the count reported when `Reported` selects it. */
    method Complete(downloaded: map<string, string>, tasks: seq<string>, reported: seq<nat>, total: nat,
                    download: string -> Option<string>, url: string)
      returns (downloaded': map<string, string>, tasks': seq<string>, reported': seq<nat>)
      ensures tasks' == tasks + [url]
      ensures var f := download(url); downloaded' == if f.Some? && f.value != [] then downloaded[url := f.value] else downloaded
      ensures reported' == if Reported(|tasks| + 1, total) then reported + [|tasks| + 1] else reported
    {
      downloaded', tasks', reported' := downloaded, tasks + [url], reported;
      var filename := download(url);
      if filename.Some? && filename.value != [] {
        downloaded' := downloaded[url := filename.value];
      }
      var i := |tasks'|;
      if i % 10 == 0 || i == total {
        reported' := reported + [i];
      }
    }
  }
}
