# spider-knowledge, modelled in Dafny

spider-knowledge is a collection of Python web crawlers. This project models
their bookkeeping logic, with the I/O taken out. There are four groups:

- **A proxy pool** (`proxy_pool.py`). It keeps a FIFO queue of
  `scheme://ip:port` proxies, the set of proxies it has admitted, and an
  "updating" flag. It refills itself from free listing pages and revalidates
  its queue. One of the novel spiders (`biquge_with_proxy.py`) consumes it:
  each attempt of its `get_page` checks out one proxy and reports how that
  proxy did, and every chapter download fetches its pages that way.
- **Four novel downloaders and their command-line front end**
  (`biquge_spider.py`, `biquge_with_proxy.py`, `async_biquge_spider.py`,
  `advanced_biquge_spider.py`, `novel_downloader.py`). They cover:
  - chapter URLs, title sanitising and zero-padded chapter file names;
  - the interactive "start-end" range prompt and the clamped chapter slice;
  - the resume set of finished chapter URLs and the per-chapter retry loop;
  - progress checkpoints, batches of fifty, and success and failure counts;
  - merging chapter files;
  - the dependency check and the choice of a search result.
- **Two news crawlers** (`news_crawler_basic.py`, `news_crawler_advanced.py`).
  They cover link normalisation and filtering, result caps, de-duplication
  against crawled URLs, summaries, the retrying request, and the keyword
  sentiment ratio.
- **Two Weibo spiders and two small state holders** (`weibo_spider.py`,
  `async_weibo_spider.py`, `crawler_manager.py`, `config_loader.py`). They
  cover:
  - HTML tag stripping, and parsing weibos and comments with their defaults;
  - picture URLs, the topic card filter and comment tagging;
  - the capped sentiment score;
  - the crawl-status state machine, the summary table upsert and the
    parameterised news query;
  - the JSON configuration with its defaults and shallow update.

Everything the code gets from outside is a parameter of the model:

- pages, HTTP replies, DOM look-ups, proxy liveness;
- file listings and contents, clocks, user answers.

Each file keeps the source's form:

- Mutable objects are classes whose methods are proved against functions on
  their abstract state. Examples are `ProxyPool.Pool`, the spider classes,
  `CrawlerManager.Manager` and `ConfigLoader.ConfigLoader`.
- Loops are methods with loop invariants.
- Pure record shaping is functions.
- The lemmas state what the source promises about those functions.

Module `Base` holds the Python semantics the crawlers rely on:

- `strip`, `split` and `int()`;
- slices with negative bounds;
- `re.sub` for whitespace and markers;
- code-point string order;
- filtering loops.

Module `NovelCommon` holds the chapter bookkeeping that the three threaded and
asynchronous downloaders share line for line. Module `WeiboCommon` holds what
the two Weibo spiders share.

## Model

| member | source | states |
|---|---|---|
| ProxyPool.Pool.constructor | proxy_pool.py:25-60 | An empty queue and known set, not updating, with the given minimum, check interval and timeout, and the ten listing sources in declared order. |
| ProxyPool.Pool.UpdatePool | proxy_pool.py:111-160 | The new pool state is `Refill` of the old one. Nothing happens while a refill runs. Otherwise the admitted candidates are queued behind the existing proxies and the flag is false again on exit. |
| ProxyPool.Pool.CheckProxies | proxy_pool.py:80-107 | The new pool state is `Revalidate` of the old one. The queue is filtered by liveness in order, and the known set is untouched. |
| ProxyPool.Pool.GetProxy | proxy_pool.py:226-246 | The proxy returned and the new state are `Checkout` of the old state. An empty, idle pool is refilled first. Then the front of the queue is taken, or None when the queue is empty. |
| ProxyPool.Pool.ReportProxy | proxy_pool.py:248-266 | The new state is `Report` of the old one. A falsy proxy changes nothing. A success appends the proxy to the queue without a membership check. A failure removes it from the known set only. |
| ProxyPool.Pool.MaintainOnce | proxy_pool.py:62-78 | One maintenance round (`Tick`): a refill only when the queue is below the minimum and no refill runs, then a revalidation. |
| ProxyPool.FetchSource | proxy_pool.py:123-134 | The proxies gathered for one source are those scraped from each of its page URLs, in request order. |
| ProxyPool.CollectCandidates | proxy_pool.py:122-136 | The candidates are the proxies of every source, in source order. |
| ProxyPool.AdmitLive | proxy_pool.py:141-148 | The admission loop's output equals `Admit`: the live candidates not yet known, each once, with the known set grown as it goes. |
| ProxyPool.PairProxies | proxy_pool.py:188-195 | The pairing loop's output equals `Paired` of the IP and port columns. |
| ProxyPool.PairedAt | proxy_pool.py:188-195 | The pairing has 2·min(\|ips\|,\|ports\|) entries. Entry 2i is `http://ip:port` and entry 2i+1 is `https://ip:port` for row i. |
| ProxyPool.PairedEqualAt | proxy_pool.py:188-195 | The same for equally long columns: 2·\|ips\| entries, http then https for each row. |
| ProxyPool.PairedTruncate | proxy_pool.py:189 | Only the first min(\|ips\|,\|ports\|) rows of either column matter. |
| ProxyPool.CandidatesAreProxyUrls | proxy_pool.py:188-195 | Every scraped candidate starts with `http://` or `https://`. |
| ProxyPool.AdmitSpec | proxy_pool.py:145-148 | A proxy is admitted iff it is a live candidate not known before. The grown set is the old set plus the admitted proxies. No proxy is admitted twice. |
| ProxyPool.AdmitConcat | proxy_pool.py:145-148 | Admitting two lists in a row is the same as admitting their concatenation. |
| ProxyPool.KeepSpec | proxy_pool.py:100-102 | Revalidation keeps a queued proxy iff it is live. It never lengthens the queue and keeps the queue free of duplicates. |
| ProxyPool.KeepConcat | proxy_pool.py:100-107 | Revalidation keeps queue order: it distributes over concatenation. |
| ProxyPool.RefillPreservesWellFormed | proxy_pool.py:111-160 | A refill keeps the pool well formed: no duplicate in the queue, every queued proxy known and a proxy URL. The known set only grows, and a proxy newly queued was a live, previously unknown candidate. |
| ProxyPool.RevalidatePreservesWellFormed | proxy_pool.py:80-107 | Revalidation keeps the pool well formed, leaves the known set as it was, and queues exactly the live proxies that were queued. |
| ProxyPool.RevalidatedOutNeverReadmitted | proxy_pool.py:100-107 | A proxy that revalidation drops stays in the known set. So no later refill can queue it again, whatever the sources yield. |
| ProxyPool.CheckoutSuccessRotates | proxy_pool.py:240-261 | On a non-empty pool, checkout gives the front proxy. A success report moves it to the back, and the pool stays well formed. |
| ProxyPool.CheckoutFailureRetires | proxy_pool.py:240-265 | A checkout followed by a failure report leaves the proxy in neither the queue nor the known set, and the pool stays well formed. |
| ProxyPool.TickProvenance | proxy_pool.py:62-78 | After a maintenance round every queued proxy is live. Each one was queued before, or is a previously unknown candidate. |
| ProxyPool.ReportSuccessOfUnknownProxy | proxy_pool.py:259-261 | A success report queues a proxy the pool never admitted, so the queue is not always covered by the known set. |
| ProxyPool.SourceUrlsShape | proxy_pool.py:125-134 | A source containing `{}` is requested as pages 1, 2 and 3, in order and as three different URLs. Any other source is requested once, as itself. |
| ProxyPool.TemplatePagesDiffer | proxy_pool.py:125-128 | Filling a `{}` template with two different page numbers below ten gives two different URLs. |
| BiqugeWithProxy.ProxySpider.constructor | biquge_with_proxy.py:26-65 | An empty resume set and a fresh, empty proxy pool with minimum 20 and check interval 300. |
| BiqugeWithProxy.ProxySpider.GetPage | biquge_with_proxy.py:92-133 | The body returned and the pool afterwards are `ProxiedFetch`. Each attempt checks out a proxy and requests with it (no proxies mapping when it is falsy). A success is reported and its body returned; a failure is reported; "" comes after the last attempt. |
| BiqugeWithProxy.ProxySpider.DownloadChapter | biquge_with_proxy.py:259-323 | The result, the new resume state and the pool afterwards are `ProxiedChapter`. A recorded chapter or one whose file exists is done without a request. Otherwise each attempt fetches the page through `get_page`, so it checks out and reports proxies, then reads the content element of a non-empty page and writes the chapter file. The first attempt that finds content and whose write succeeds gives the result, stripped and cleaned; an attempt whose write raises fails and the next one fetches again through the pool. |
| BiqugeWithProxy.ProxySpider.DownloadNovel | biquge_with_proxy.py:325-402 | The results, the final resume state and the pool afterwards are `ProxiedRun` over `DownloadRange(chapters, start, end)`, starting from the saved progress when there is one. Each chapter sees the resume state and the pool the previous chapter left. Progress is written at `Checkpoints`. The success and failure counts are `CountOk` and `CountFailed`. |
| BiqugeWithProxy.AttemptsMadeSpec | biquge_with_proxy.py:285-323 | The attempts stop at the first whose outcome is Some. `ProxiedChapter` counts on `Saved`, where an outcome is Some only when the attempt found content and its chapter-file write succeeded, so an attempt whose write raised does not stop them. There is at least one when any is left and at most `retry`. Every attempt but the last failed, and a chapter where none succeeded used them all. |
| BiqugeWithProxy.ProxiedChapterAttempts | biquge_with_proxy.py:275-323 | A chapter that is neither recorded nor on disk makes between one and `retry` attempts through the pool. Every attempt but the last found no content or failed to write the file. The chapter succeeds iff the last attempt found content and wrote the file, and then returns that content cleaned; a failure used every attempt. The pool afterwards is the one those attempts left. |
| BiqugeWithProxy.UnwritableChapterDrainsAttempts | biquge_with_proxy.py:285-323 | When no attempt can write the chapter file (the file is opened under the unsanitised title, py:272 and 310), the chapter fails with nothing recorded after all `retry` attempts, each fetching through the pool again. |
| BiqugeWithProxy.PoolBeforeKeepsWellFormed | biquge_with_proxy.py:285-288 | Each attempt of `download_chapter` calls `get_page`, and so keeps a well-formed pool well formed. |
| BiqugeWithProxy.ProxiedChapterKeepsWellFormed | biquge_with_proxy.py:259-323 | A whole `download_chapter` keeps a well-formed pool well formed. |
| BiqugeWithProxy.ProxiedRunKeepsWellFormed | biquge_with_proxy.py:372-380 | A whole `download_novel` keeps a well-formed pool well formed. |
| BiqugeWithProxy.ProxiedRunSpec | biquge_with_proxy.py:372-395 | The run keeps `RunRecords`: one result per chapter, in chapter order. Every successful chapter's URL is recorded. The record only grows, and only by URLs of successful chapters. |
| BiqugeWithProxy.FinishedChapterSparesPool | biquge_with_proxy.py:275-277 | Downloading a chapter again after it succeeded returns success without a request, so no proxy is checked out and the pool stays as it is. |
| BiqugeWithProxy.ProxiedFetchAttempts | biquge_with_proxy.py:102-104 | `get_page` makes at most `retry` attempts, and each attempt checks out exactly one proxy. This and the next two lemmas hold for any checkout step, so in particular for the pool's `get_proxy`. |
| BiqugeWithProxy.ProxiedFetchEarlierFailed | biquge_with_proxy.py:102-131 | Every attempt before the last one failed. |
| BiqugeWithProxy.ProxiedFetchLast | biquge_with_proxy.py:116-133 | On a successful last attempt its body is returned and a truthy proxy that served it is back at the end of the queue. Otherwise all `retry` attempts were used and the body is "". |
| BiqugeWithProxy.AllFailuresGiveEmptyPage | biquge_with_proxy.py:124-133 | When every request fails, `get_page` uses all `retry` attempts and returns "". |
| BiqugeWithProxy.CheckoutReportKeepsWellFormed | biquge_with_proxy.py:103-127 | A checkout followed by a report of the same proxy, with either outcome, keeps the pool well formed. |
| BiqugeWithProxy.ProxiedFetchKeepsWellFormed | biquge_with_proxy.py:92-133 | A whole `get_page` keeps a well-formed pool well formed. |
| BiqugeSpider.ChapterUrl | biquge_spider.py:115 | An href starting with '/' is appended to the novel URL; any other href is the URL itself. The result always ends with the href. |
| BiqugeSpider.AnchorChapters | biquge_spider.py:111-116 | One chapter per anchor. |
| BiqugeSpider.ChapterList | biquge_spider.py:111-116 | The chapter-list loop yields `AnchorChapters`. |
| BiqugeSpider.AnchorChaptersSpec | biquge_spider.py:113-116 | Chapter i has anchor i's stripped text as its title and `ChapterUrl` of anchor i's href as its URL. |
| BiqugeSpider.SanitizeTitle | biquge_spider.py:191 | Same length as the title. Each of `\ / : * ? " < > \|` becomes '_', every other character is kept, and no forbidden character remains. |
| BiqugeSpider.SanitizeIdempotent | biquge_spider.py:191 | Sanitising twice is sanitising once. |
| BiqugeSpider.ZeroPad4 | biquge_spider.py:192 | `{:04d}`: only digits, and exactly four of them below 10000. |
| BiqugeSpider.PadValue | biquge_spider.py:192 | A number below 10^w, zero-padded to w digits, reads back as that number. |
| BiqugeSpider.ChapterFileName | biquge_spider.py:192 | A chapter file name ends in ".txt" and is never "info.txt". |
| BiqugeSpider.ChapterNumberReadsBack | biquge_spider.py:192 | Below chapter 9999, the first four characters of the file name read back as the 1-based chapter number, followed by '_'. |
| BiqugeSpider.PadOrder | biquge_spider.py:192 | Zero-padded numbers of one width sort strictly like the numbers. |
| BiqugeSpider.FileNamesSortInChapterOrder | biquge_spider.py:192-235 | For positions i < j < 9999, the file name of chapter i sorts strictly before that of chapter j, whatever the titles. |
| BiqugeSpider.TenThousandthChapterSortsEarly | biquge_spider.py:192-235 | Past 9999 the order breaks: "10000_…" sorts before "1000_…". |
| BiqugeSpider.Truncate | biquge_spider.py:183-185 | A prefix of the chapters. It is cut to `max_chapters` only when that is truthy and below the length; a negative value drops from the end as a Python slice does; otherwise the list is unchanged. |
| BiqugeSpider.CleanContent | biquge_spider.py:144-150 | The cleaned chapter text neither starts nor ends with whitespace. |
| BiqugeSpider.CleanContentSpec | biquge_spider.py:147-150 | For a text without site markers, cleaning is the whitespace collapse and the strip alone. Every whitespace run of the result is exactly "\n\n", none is at either end, and the other characters are the text's, in order. |
| BiqugeSpider.DownloadNovel | biquge_spider.py:155-216 | Returns false, writing nothing, exactly when the novel info is missing. Otherwise info.txt is written first, then the chapter loop `DownloadFiles` runs over the truncated chapter list. |
| BiqugeSpider.WriteChapters | biquge_spider.py:189-208 | The chapter loop gives `DownloadFiles`: a chapter is written unless its file exists or its content is empty, and the positions written are recorded in order. |
| BiqugeSpider.DownloadFilesOnlyAdds | biquge_spider.py:189-208 | The chapter loop never removes a file. It adds only chapter file names of the list. |
| BiqugeSpider.DownloadFilesWrites | biquge_spider.py:195-208 | A file is written only for a chapter within the list whose file did not exist and whose content is non-empty. |
| BiqugeSpider.DownloadFilesWritesInOrder | biquge_spider.py:189 | The chapters are written in strictly increasing position. |
| BiqugeSpider.DownloadFilesComplete | biquge_spider.py:189-208 | Afterwards every chapter with non-empty content has its file. |
| BiqugeSpider.SelectChapterFiles | biquge_spider.py:233 | Never more files than listed. |
| BiqugeSpider.SelectChapterFilesSpec | biquge_spider.py:233 | A file is merged iff it is listed, ends in ".txt" and is not "info.txt"; the selection is a sub-multiset of the listing. |
| BiqugeSpider.SortLex | biquge_spider.py:235 | `list.sort()` yields a permutation of its input. |
| BiqugeSpider.SortLexSpec | biquge_spider.py:235 | The sorted list is in ascending code-point order and a permutation of the input. |
| BiqugeSpider.InsertLexSorted | biquge_spider.py:235 | Inserting into a sorted list keeps it sorted. |
| BiqugeSpider.MergedText | biquge_spider.py:248-257 | The merged text starts with the info text and a blank line. |
| BiqugeSpider.MergedTextExtends | biquge_spider.py:254-257 | Merging more files only appends to the text. |
| BiqugeSpider.MergeChapters | biquge_spider.py:218-260 | None when the novel directory is missing. Otherwise the files merged are the sorted chapter files and the text is `MergedText` with the info text ("" when info.txt is absent). |
| BiqugeSpider.MergeOrderFollowsChapters | biquge_spider.py:233-257 | Below chapter 9999 the merge order is chapter order: the file of chapter i comes before that of chapter j when i < j. |
| AsyncBiqugeSpider.ParseItem | async_biquge_spider.py:136-161 | An item gives a result iff its title link has an href. A missing info span reads "未知" for its field, and a missing description reads "". |
| AsyncBiqugeSpider.AsyncSpider.constructor | async_biquge_spider.py:27-58 | An empty resume set with the given concurrency and timeout. |
| AsyncBiqugeSpider.AsyncSpider.GetPage | async_biquge_spider.py:77-104 | The body of the first status-200 reply among the first `retry` attempts, and "" when there is none. |
| AsyncBiqugeSpider.AsyncSpider.SearchNovel | async_biquge_spider.py:106-168 | No results for an empty page. Otherwise the results are the items that parse, in order. |
| AsyncBiqugeSpider.AsyncSpider.DownloadChapter | async_biquge_spider.py:238-303 | The result and the new resume state are `ChapterOutcome`, with the page text stripped before cleaning. An attempt whose `aio_open` write raises fails and is retried. |
| AsyncBiqugeSpider.AsyncSpider.DownloadBatch | async_biquge_spider.py:362-365 | Extends the results by the batch's chapters in task order, so the results stay `DownloadRun` of the chapters done. |
| AsyncBiqugeSpider.AsyncSpider.DownloadNovel | async_biquge_spider.py:305-386 | The results and resume state are `DownloadRun` over the clamped slice. The marks recorded are `BatchMarks` of batches of fifty, and the counts are `CountOk` and `CountFailed`. |
| AdvancedBiqugeSpider.ParseElements | advanced_biquge_spider.py:162-194 | An item gives a result iff every element is present. The span labels are removed without stripping. |
| AdvancedBiqugeSpider.AdvancedSpider.constructor | advanced_biquge_spider.py:30-65 | An empty resume set with the given worker count and timeout. |
| AdvancedBiqugeSpider.AdvancedSpider.SearchNovel | advanced_biquge_spider.py:159-196 | The results are the items with every element present, in order. |
| AdvancedBiqugeSpider.AdvancedSpider.DownloadChapter | advanced_biquge_spider.py:270-363 | The result and the new resume state are `ChapterOutcome`, with the page text not stripped before cleaning. An attempt whose file write raises fails and is retried. |
| AdvancedBiqugeSpider.AdvancedSpider.DownloadNovel | advanced_biquge_spider.py:365-442 | The results and resume state are `DownloadRun` over the clamped slice. Progress is written at `Checkpoints`, and the counts are `CountOk` and `CountFailed`. |
| AdvancedBiqugeSpider.AdvancedSpider.MergeNovel | advanced_biquge_spider.py:444-497 | None when info.json is missing. Otherwise the merged text is the header, then the block of every chapter whose file exists, in info order. |
| AdvancedBiqugeSpider.PresentChaptersSpec | advanced_biquge_spider.py:482-491 | The chapters merged are exactly those whose file exists, and merging keeps info order. |
| AdvancedBiqugeSpider.BlocksOfOneMore | advanced_biquge_spider.py:482-491 | A chapter without a file adds nothing to the merged text. A chapter with one adds exactly its block at the end. |
| NovelCommon.ParseRangeBoth | biquge_with_proxy.py:518-529 | "a-b" gives start a-1 and end b. |
| NovelCommon.ParseRangeStartOnly | biquge_with_proxy.py:518-529 | "a" gives start a-1 and no end. |
| NovelCommon.ParseRangeDefaults | biquge_with_proxy.py:514-529 | Blank input, more than two parts, or a first part `int()` rejects leave start 0 and no end. |
| NovelCommon.ParseRangeKeepsStartOnBadEnd | biquge_with_proxy.py:522-529 | "a-junk" keeps the start a-1 assigned before `int()` fails on the end. |
| NovelCommon.ZeroStartSelectsNothing | biquge_with_proxy.py:366-529 | "0-b" gives start -1. Python reads that as the last chapter, so a book with more than b chapters downloads nothing. |
| NovelCommon.DownloadRange | biquge_with_proxy.py:353-366 | `chapters[start:end]` after the end is bounded by the chapter count: the slice from start with no end, [] when the end is not after the start, never longer than the list. |
| NovelCommon.FirstContentSpec | biquge_with_proxy.py:285-323 | The first attempt that found content decides. There is none exactly when every attempt failed. |
| NovelCommon.ChapterOutcomeSpec | biquge_with_proxy.py:275-323 | A chapter succeeds iff its URL was recorded, its file exists, or an attempt both found content and wrote the chapter file (the write is inside the attempt's `try`). The URL is recorded exactly on success, and a failure changes nothing and returns no content. |
| NovelCommon.UnwritableChapterFails | biquge_with_proxy.py:285-323 | A chapter neither recorded nor on disk whose file no attempt can write fails, however many attempts find content; nothing is recorded and no file is added. |
| NovelCommon.FinishedChapterIsSkipped | biquge_with_proxy.py:275-277 | A chapter that succeeded is skipped the next time: no fetch and no change. |
| NovelCommon.DownloadRunSpec | advanced_biquge_spider.py:412-421 | The run keeps `RunRecords`: one result per chapter, in chapter order. Every successful chapter's URL is recorded. The record only grows, and only by URLs of successful chapters. |
| NovelCommon.RerunSkipsFinished | advanced_biquge_spider.py:286-406 | Resuming from the state a run left, every chapter that succeeded is skipped, whatever the pages say the second time. |
| NovelCommon.CountResults | biquge_with_proxy.py:397-398 | The success count is the number of successful results, and the failure count the number of failed ones. |
| NovelCommon.CountSplit | biquge_with_proxy.py:397-398 | success_count + fail_count == total_chapters. |
| NovelCommon.CheckpointsSpec | biquge_with_proxy.py:384 | Progress is written at exactly the multiples of ten and at the total, in increasing order. |
| NovelCommon.NoLongGapWithoutSave | biquge_with_proxy.py:384 | Every finished chapter is followed by a progress write within ten chapters. |
| NovelCommon.BatchMarksSpec | async_biquge_spider.py:359-368 | One mark per batch of fifty. The first mark is min(i+50, total), each later one is at most fifty above the previous, and the last is the total. |
| NovelDownloader.CheckDependencies | novel_downloader.py:58-64 | The loop yields the required packages that are not installed, in declared order. |
| NovelDownloader.MissingSpec | novel_downloader.py:51-64 | For any map of installed flags, a package is missing iff the spider type needs it and it is not installed. An unknown type, or everything installed, reports nothing. The probe never marks every package installed (see the next row but one). |
| NovelDownloader.ProbePackages | novel_downloader.py:35-48 | The probe's map has exactly the probed packages as keys. A package is marked installed iff `__import__` of its own name succeeds. |
| NovelDownloader.BeautifulSoupReportedMissing | novel_downloader.py:43-64 | The probe imports by package name, and the beautifulsoup4 package installs the module `bs4`. When no module is named `beautifulsoup4`, every known spider type reports beautifulsoup4 as missing from the probe's map, so `check_dependencies` never returns []. |
| NovelDownloader.InstallDependencies | novel_downloader.py:66-86 | True without asking for no packages. False unless the answer is y or Y. Otherwise true iff every pip install succeeds. |
| NovelDownloader.Listed | novel_downloader.py:111 | At most ten results are listed: a prefix of the results, all of them when there are at most ten. |
| NovelDownloader.SelectByArgument | novel_downloader.py:127-131 | A 1-based number n selects index n-1 iff 1 ≤ n ≤ the number of results. |
| NovelDownloader.SelectByInput | novel_downloader.py:119-124 | A line `int()` rejects is not a number. Any other line selects as `SelectByArgument` does. |
| NovelDownloader.UnlistedResultSelectable | novel_downloader.py:111-131 | With more than ten results, number 11 is accepted and selects the eleventh result, although only ten are listed. |
| NovelDownloader.ChapterBounds | novel_downloader.py:149-150 | Start is s-1 when s is present and non-zero, else 0. End is e when e is present and non-zero, else None. |
| NewsCrawlerBasic.NormalizeLink | news_crawler_basic.py:71-78 | An href gives a link iff it starts with '/' or 'http'. The link starts with 'http' and ends with the href, and '/' and '//' hrefs become https links. |
| NewsCrawlerBasic.NormalizeLinkIdempotent | news_crawler_basic.py:71-78 | A normalised link normalises to itself. |
| NewsCrawlerBasic.Summary | news_crawler_basic.py:101-106 | The summary is at most 200 characters. |
| NewsCrawlerBasic.NewsOfSpec | news_crawler_basic.py:59-117 | An anchor gives a record iff its href holds an indicator and normalises, and its title (after the parent fallback) has length in [5, 100] and no invalid keyword. The record carries that title, the link, a summary of at most 200, the category and the pub_time and crawl_time of the clock reading taken for that anchor. |
| NewsCrawlerBasic.GetNewsList | news_crawler_basic.py:35-128 | [] when the request raised. Otherwise the first twenty records the anchors give, in document order, each stamped by the clock reading taken for its own anchor position. |
| NewsCrawlerBasic.NewsListSpec | news_crawler_basic.py:55-117 | At most twenty records. Each comes from an anchor at some position i whose href holds an indicator and normalises to the record's link; the record has a valid title free of invalid keywords and carries the pub_time and crawl_time read for position i. |
| NewsCrawlerBasic.ImageOf | news_crawler_basic.py:159-161 | An image URL kept is its src or data-src and contains 'http'. |
| NewsCrawlerBasic.DetailImages | news_crawler_basic.py:156-161 | The images kept from the first five `img` elements are at most five, and each contains 'http'. |
| NewsCrawlerBasic.GetNewsDetail | news_crawler_basic.py:130-170 | Empty for a failed request. Otherwise the text of the first content selector that matches, and the qualifying URLs among the first five images (at most five, each with 'http'). |
| NewsCrawlerBasic.Crawl | news_crawler_basic.py:199-230 | The records are `AllNews`, and the files are written iff there is a record. |
| NewsCrawlerBasic.StopsAtFirstEmptyPage | news_crawler_basic.py:211-218 | No page of a category after the first empty one is read. |
| NewsCrawlerBasic.FullPagesConcatenate | news_crawler_basic.py:205-218 | With no empty page, a category yields its pages 1..max_pages concatenated in order. |
| NewsCrawlerAdvanced.GetProxy | news_crawler_advanced.py:167-173 | A proxy iff proxies are enabled and the list is non-empty, and then a member of the list. |
| NewsCrawlerAdvanced.MakeRequest | news_crawler_advanced.py:175-203 | The first status-200 reply among the first `max_retries` attempts, None when there is none. |
| NewsCrawlerAdvanced.SentimentSpec | news_crawler_advanced.py:299-312 | The score lies in [-1, 1]. It is positive iff more positive than negative words occur, negative iff fewer do, and 0 without listed words. |
| NewsCrawlerAdvanced.SentimentByPresence | news_crawler_advanced.py:306-307 | The score depends only on which listed words occur, not on how often. |
| NewsCrawlerAdvanced.LinkOfSpec | news_crawler_advanced.py:217-235 | An anchor yields a link iff its resolved URL starts with 'http', holds 'news', 'article' or 'story', is not crawled, and its title is longer than five characters. |
| NewsCrawlerAdvanced.NewsCrawler.ExtractNewsLinks | news_crawler_advanced.py:205-240 | [] when the request failed. Otherwise the qualifying links in document order, cut at `LinkCap(max_links)`. |
| NewsCrawlerAdvanced.ExtractedLinksSpec | news_crawler_advanced.py:217-238 | Every link is an absolute news URL not yet crawled with a title longer than five. There are at most `max_links` of them, or one when `max_links` is not positive. |
| NewsCrawlerAdvanced.NonPositiveCapKeepsOne | news_crawler_advanced.py:231-238 | With a non-positive `max_links`, the first qualifying link is still returned: the append comes before the check. |
| NewsCrawlerAdvanced.CrawledLinkIsNotExtractedAgain | news_crawler_advanced.py:227-378 | Once a link's URL is recorded as crawled, the same anchor no longer yields a link. |
| NewsCrawlerAdvanced.ExtractNewsContent | news_crawler_advanced.py:242-297 | None iff the request failed. Otherwise the title, content and time come from the first matching selector of each list, the summary is `Summary`, and word_count is the content length. |
| NewsCrawlerAdvanced.SummarySpec | news_crawler_advanced.py:286 | A content of at most 200 characters is its own summary. A longer one is its first 200 characters plus "...". |
| NewsCrawlerAdvanced.NewsCrawler.constructor | news_crawler_advanced.py:54-71 | The default configuration when none is given. The crawled URLs are those stored, or none when reading failed. |
| NewsCrawlerAdvanced.NewsCrawler.CrawlSingleNews | news_crawler_advanced.py:366-389 | A page with non-empty content is recorded in the crawled URLs and the news data, and returned. Any other outcome changes nothing and returns None. |
| WeiboCommon.StripTagsLeavesNoTag | weibo_spider.py:201 | After `re.sub(r'<[^>]+>', '', …)` no tag is left. |
| WeiboCommon.StripTagsOfTagFree | weibo_spider.py:201 | A text without tags is unchanged. |
| WeiboCommon.StripTagsIdempotent | weibo_spider.py:201 | Stripping tags twice strips nothing more. |
| WeiboCommon.StripTagsSubset | weibo_spider.py:201 | Stripping only removes characters. |
| WeiboCommon.PicUrls | weibo_spider.py:209-212 | [] when pic_ids is absent or empty. Otherwise one URL per id, in order, each under the sinaimg prefix and naming its id. |
| WeiboCommon.PicRoundTrip | weibo_spider.py:210 | A picture URL has the prefix and suffix, and names the id it was made from. |
| WeiboCommon.VideoUrl | weibo_spider.py:215-218 | "" unless page_info's type is 'video'. |
| WeiboCommon.ParseComment | weibo_spider.py:225-240 | reply_count is total_number, default 0, and like_count defaults to 0. The text is tag-stripped, user fields default to "", and the comment carries no tags yet. |
| WeiboCommon.TopicCardsSpec | weibo_spider.py:143-155 | Exactly the cards of card_type 9 are kept. |
| WeiboCommon.CollectReplies | async_weibo_spider.py:462-469 | The replies loop yields `ReplyRecords`: each reply parsed and tagged with the weibo and its parent comment. |
| WeiboCommon.CollectComments | async_weibo_spider.py:448-469 | The comment loop yields `Threads`: each comment tagged, then its replies when they are fetched. |
| WeiboCommon.CollectThread | async_weibo_spider.py:449-469 | One comment yields its tagged record, then its tagged replies exactly when they are fetched, that is `Thread`. |
| WeiboCommon.ThreadTags | async_weibo_spider.py:452-469 | Every record of a thread carries the weibo id and the topic. Only replies carry a parent id, which is the comment's own id. Without a reply fetch a thread is the comment alone. |
| WeiboCommon.CrawlCommentsTags | async_weibo_spider.py:448-469 | Every comment record carries the non-empty id of a crawled weibo and the crawl's topic. A parent id appears only when replies were asked for. |
| WeiboCommon.NoRepliesWithoutFlag | async_weibo_spider.py:456 | Without include_replies, the reply requests play no part. |
| WeiboSpider.ParseWeibo | weibo_spider.py:189-220 | The text is tag-stripped and tag-free. Missing counts are 0, a missing user gives "" fields, and the pictures and video follow `PicUrls` and `VideoUrl`. |
| Base.Map | weibo_spider.py:278-282 | The parsed weibos: one per weibo, the i-th being `parse_weibo_content` of the i-th weibo (the asynchronous spider's loop at async_weibo_spider.py lines 431-435 is the same). |
| WeiboSpider.CrawlUserWeibosAndComments | weibo_spider.py:260-303 | The parsed weibos, and the comment records of every weibo with an id, tagged with it. Each CSV is written iff its list is non-empty. |
| WeiboSpider.CrawlTopicWeibosAndComments | weibo_spider.py:305-354 | The weibos of cards with 'mblog', tagged with the topic, and their comment records tagged with weibo id and topic. Each CSV is written iff its list is non-empty. |
| WeiboSpider.UserCommentsSpec | weibo_spider.py:285-296 | Every comment record of a user crawl carries the id of one of the user's weibos, no topic and no parent. |
| WeiboSpider.TopicCrawlSpec | weibo_spider.py:323-347 | Every parsed weibo carries the topic and tag-free text, and every comment record carries the topic. |
| AsyncWeiboSpider.Location | async_weibo_spider.py:358-361 | "" when geo is absent or empty. |
| AsyncWeiboSpider.ParseWeibo | async_weibo_spider.py:321-366 | The record of the weibo unwrapped from 'mblog' when present: tag-stripped, tag-free text, default counts, `PicUrls`, `VideoUrl` and `Location`. |
| WeiboCommon.Ids | async_weibo_spider.py:438 | The i-th id is weibo i's id, or "", read from the raw record before any unwrapping (the same reading as weibo_spider.py line 285). |
| AsyncWeiboSpider.EncodeTopic | async_weibo_spider.py:216 | No '#' remains, and a topic without '#' is unchanged. |
| AsyncWeiboSpider.EncodeTopicSpec | async_weibo_spider.py:216 | `replace('#', '%23')` leaves no '#' and changes a topic without one not at all. |
| AsyncWeiboSpider.AnalyzeSentiment | async_weibo_spider.py:554-581 | The two counting loops and the cap give `Normalize(Score(text))`, which lies in [-1, 1]. |
| AsyncWeiboSpider.CountWords | async_weibo_spider.py:567-573 | One counting loop: the number of listed words that occur in the text, each counted once per listing. |
| AsyncWeiboSpider.NormalizeSpec | async_weibo_spider.py:576-581 | The result lies in [-1, 1] and has the sign of the score. It is score/5 for \|score\| ≤ 5 and saturates at ±1 beyond. |
| AsyncWeiboSpider.HateCountsTwice | async_weibo_spider.py:561-573 | '讨厌' is listed twice, so a text containing it counts at least two negatives. With no positive word the score is at most -2 and the sentiment at most -0.4. |
| AsyncWeiboSpider.SentimentByPresence | async_weibo_spider.py:567-573 | The sentiment depends only on which listed words occur. |
| AsyncWeiboSpider.CrawlUserWeibosAndComments | async_weibo_spider.py:407-475 | The parsed weibos, and the comment and reply records of every weibo with an id. Replies are fetched only when asked for and announced. Each CSV is written iff its list is non-empty (`save_to_csv` skips empty data). |
| AsyncWeiboSpider.CrawlTopicWeibosAndComments | async_weibo_spider.py:477-552 | The topic-tagged weibos of cards with 'mblog', and their comment and reply records tagged with weibo id and topic. Each CSV is written iff its list is non-empty. |
| AsyncWeiboSpider.UserCommentsSpec | async_weibo_spider.py:446-469 | Every comment record carries the id of one of the user's weibos. A reply appears only when replies were asked for, and carries its parent comment's id. |
| CrawlerManager.Manager.constructor | crawler_manager.py:25-38 | Idle status: not running, no task, progress and total 0, no times, no errors. The summary table holds what earlier runs stored. |
| CrawlerManager.Manager.GetCrawlStatus | crawler_manager.py:277-280 | The status as it is; the manager does not change. |
| CrawlerManager.Manager.StartTask | crawler_manager.py:137-141 | Running, with the task name and start time, and the errors cleared. |
| CrawlerManager.Manager.CompleteTask | crawler_manager.py:149-152 | Not running, with the end time stamped and the total set to the news count. |
| CrawlerManager.Manager.FailTask | crawler_manager.py:156-159 | Not running, with the error message appended. |
| CrawlerManager.Manager.SaveToSummaryDb | crawler_manager.py:205-236 | The summary table becomes `Upsert` of each record in turn. |
| CrawlerManager.Manager.RunBasicCrawl | crawler_manager.py:135-160 | A crawl that finished saves its items as 'basic' rows, counts them and stops. One that raised stops with its message as the only error. |
| CrawlerManager.Manager.RunAdvancedCrawl | crawler_manager.py:170-197 | A finished run sets the total to its record count and stops. One that raised stops with its message as the only error. |
| CrawlerManager.Manager.StopCrawl | crawler_manager.py:346-354 | When running: not running any more, end time stamped, "stopped". Otherwise "not_running" and nothing changes. |
| CrawlerManager.Manager.GetNewsQuery | crawler_manager.py:287-299 | The query text and the parameters are `QueryText` and `QueryParams`, built clause by clause. |
| CrawlerManager.QueryShape | crawler_manager.py:287-299 | The four cases: the source clause iff a source is given, then the type clause iff a type is given. The parameters follow the same order and end with limit and offset. |
| CrawlerManager.QueryPlaceholders | crawler_manager.py:287-299 | The query has exactly one `?` per parameter. |
| CrawlerManager.FiltersSpec | crawler_manager.py:290-296 | One parameter per applied filter: the source first when given, the crawler type last when given. |
| CrawlerManager.SummaryRowOf | crawler_manager.py:218-229 | The url is the record's link, else its url, else "". Sentiment defaults to 0.0, word_count to 0, and the row carries the crawler type. |
| CrawlerManager.BasicRowSpec | crawler_manager.py:218-229 | A basic crawler item becomes a row keyed by its link, with the fields the basic crawler does not produce at their defaults. |
| CrawlerManager.BasicRecords | news_crawler_basic.py:108-115 | One record per item of the basic crawler. |
| CrawlerManager.UpsertCovers | crawler_manager.py:211-230 | After saving, every record's url has a row. |
| CrawlerManager.UpsertKeepsOthers | crawler_manager.py:211-230 | Rows whose url no record carries are kept as they were. |
| CrawlerManager.UpsertAddsOnlyRecords | crawler_manager.py:211-230 | No row appears but the table's own and the records'. |
| CrawlerManager.LastRecordWins | crawler_manager.py:211-230 | The row stored for the last record's url is that record's row. |
| ConfigLoader.LoadConfig | config_loader.py:27-44 | Whatever JSON value the file holds, an object or not, or the default configuration (an object) for a missing or unreadable file. |
| ConfigLoader.DefaultSectionsPresent | config_loader.py:46-91 | The default configuration is an object whose cookie is "" and in which every section getter finds a non-empty object. |
| ConfigLoader.ConfigLoader.constructor | config_loader.py:19-25 | The configuration is loaded at once. |
| ConfigLoader.ConfigLoader.SaveConfig | config_loader.py:93-109 | Succeeds iff the file is writable. It writes the given configuration, or the current one when the argument is None. The in-memory configuration is untouched. |
| ConfigLoader.ConfigLoader.Cookie | config_loader.py:111-116 | Fails (AttributeError) iff the configuration is not an object. Otherwise the stored cookie, or "" when absent. |
| ConfigLoader.ConfigLoader.Section | config_loader.py:118-158 | Fails (AttributeError) iff the configuration is not an object. Otherwise the stored section, or `{}` when the key is absent. |
| ConfigLoader.ConfigLoader.UpdateConfig | config_loader.py:160-171 | False, with nothing changed, when the configuration is not an object. Otherwise a shallow merge: the keys are the union, every updated key takes its new value, and the others keep theirs. The whole configuration is then saved, and the merge stays in memory when the save fails. |
| Base.StripSpec | biquge_spider.py:150 | `strip()` leaves no whitespace at either end. |
| Base.StripLeftSpec | biquge_spider.py:150 | lstrip removes exactly the leading whitespace. What is left is a suffix of the input that does not start with whitespace. |
| Base.StripRightSpec | biquge_spider.py:150 | rstrip removes exactly the trailing whitespace. What is left is a prefix of the input that does not end with whitespace. |
| Base.ParseIntRoundTrip | biquge_with_proxy.py:524-527 | `int(str(n)) == n`. |
| Base.ParseNegatedDigits | biquge_with_proxy.py:524-527 | `int('-' + digits)` is minus the digits' value. |
| Base.SplitNoSeparator | biquge_with_proxy.py:522 | A text without the separator splits into itself alone. |
| Base.SplitFirstSeparator | biquge_with_proxy.py:522 | Splitting at '-' gives the part before the first separator, then the split of the rest. |
| Base.CollapseSpaceIdempotent | biquge_with_proxy.py:306 | Collapsing whitespace runs to a whitespace separator a second time changes nothing. |
| Base.CollapseSpaceKeepsText | biquge_with_proxy.py:306 | After collapsing, every non-whitespace character of the input occurs in the output. |
| Base.CollapseSpaceKeepsOrder | biquge_with_proxy.py:306 | With a whitespace separator, collapsing keeps the non-whitespace characters exactly, in order. |
| Base.CollapseSpaceRuns | biquge_with_proxy.py:306 | With a non-empty whitespace separator, every whitespace run of the collapsed text is exactly the separator. |
| Base.NonSpaceStrip | biquge_with_proxy.py:303 | `strip()` removes whitespace only: the other characters are kept, in order. |
| Base.SpaceRunsStrip | biquge_spider.py:150 | Stripping a text whose whitespace runs are all the separator leaves runs that are all the separator. |
| Base.CollapseKeepsAbsent | biquge_with_proxy.py:306 | Collapsing whitespace never creates a marker without whitespace that the input did not contain. |
| Base.CollapsedHasNoMarker | biquge_with_proxy.py:306-307 | In a text with no site marker, the marker deletion after collapsing deletes nothing. |
| Base.RemoveMarkersNoMatch | biquge_with_proxy.py:307 | A text with no site marker is left as it is. |
| Base.RemoveMarkersShortens | biquge_with_proxy.py:307 | Deleting markers never lengthens the text. |
| Base.FirstOkSpec | async_biquge_spider.py:89-104 | The retry verdict is the first status-200 attempt, every earlier attempt having failed. It is None iff none succeeded. |
| Base.FirstFoundSpec | news_crawler_basic.py:148-153 | The first selector that finds an element decides, and the text is "" when none does. |
| Base.CountPresentSame | news_crawler_advanced.py:306-307 | Two texts that contain the same listed words count the same number of them. |
| Base.SelectFirst | news_crawler_basic.py:148-153 | The selector loop yields `FirstFound`. |
| Base.FilterMapSpec | novel_downloader.py:60-64 | A filtering loop keeps exactly the defined results, in order, and never more than its input. |
| Base.SliceBound | biquge_with_proxy.py:366 | A Python slice bound is normalised into [0, n], counting a negative bound from the end. |
| Base.Take | news_crawler_basic.py:106 | `s[:n]`: a prefix of at most n elements, and all of s when it is that short. |

## Left out

- HTTP and browsers are parameters: requests, aiohttp, Selenium and BeautifulSoup. Replies, status codes, DOM look-ups and proxy liveness are inputs.
- The regex scan of IP and port columns (proxy_pool.py:181-185) is an input. Only the pairing is modelled.
- Threads, locks, thread pools, asyncio gather and semaphores, and the daemon maintenance thread are modelled as atomic sequential steps. The concurrency itself is not modelled, and neither is the blocking `Queue.get(timeout=10)`, which is "front or None".
- BiqugeWithProxy.ProxySpider.DownloadNovel: the chapters share the proxy pool in download order. In the source the thread pool's workers interleave their checkouts and reports, and that interleaving is not modelled.
- `time.sleep`, `random.uniform` and user-agent rotation are left out. `random.choice` of a proxy is the parameter `pick`. `urljoin` is the parameter `join`.
- File, CSV, JSON and sqlite I/O are left out. Existing files are a set of names, file contents a function, and the summary table a map keyed by url. Whether a chapter-file write succeeds is the parameter `writes`; every other write is taken to succeed.
- NovelCommon.ChapterOutcome: a chapter-file write that raises leaves no file. A write that raises after `open` created the file, leaving it empty or partial, is not modelled.
- These SQL behaviours are not modelled:
  - the DDL of the init_database functions;
  - `sync_advanced_data` (crawler_manager.py:238-275);
  - `get_statistics` (crawler_manager.py:310-344);
  - the advanced crawler's `save_to_database`, `generate_statistics`, `generate_charts`, `export_data` and `run`.
- The Flask routes (crawler_manager.py:360-414) are not modelled.
- `crawl_site` (news_crawler_advanced.py:391-414) only fans links out to a thread pool, and it is not modelled. `CrawlSingleNews` models each task.
- jieba keyword extraction, word clouds, charts and the averages of `analyze_weibo_data` are foreign libraries or floating-point presentation, and they are not modelled.
- The `get_news_detail` text is taken as the selector returned it. The `strip=True` of `get_text` and the script/style removal are left to that input.
- `get_novel_info` is not modelled in any spider. It only copies DOM texts.
- `search_novel` of biquge_with_proxy.py and biquge_spider.py is not modelled. Their item parsing is the same shape as the asynchronous spider's, which `ParseItem` models.
- `requests.utils.quote` of the synchronous topic URL is not modelled. The asynchronous spider's `replace('#', '%23')` is modelled.
- Cookie persistence, the login check and `get_weibo_by_user`/`get_weibo_comments` are not modelled. Their results are inputs.
- In the Weibo records (weibo_common.dfy and the two Weibo spiders), a key whose value is JSON null is not modelled: an absent key and null are the same None. In the source a null `text` makes `re.sub` raise, so that weibo or comment parses to `{}` and is dropped (weibo_spider.py:201, 221-223, 237, 242-244, 281, 293), whereas the model parses it with text "".
- CrawlerManager.Manager.GetCrawlStatus: returns the status by value. The shallow `copy()` shares the errors list with the manager, and that aliasing is not modelled.
- CrawlerManager.Manager.StopCrawl: only the status changes. The thread running the task is not stopped, by the model or by the source.
- CrawlerManager.Manager.RunAdvancedCrawl: the copy of the advanced crawler's database into the summary table is not modelled.
- The interactive loops of the spiders and of novel_downloader.py are modelled by their pieces: range parsing, listing, selection and chapter bounds. The prompting, printing and repetition are not modelled.
- NovelDownloader.InstallDependencies: the pip subprocess is the parameter `pip`. `choice.lower() == 'y'` is modelled for the ASCII answers "y" and "Y" only.
- Base.ParseIntRoundTrip: `int()` is modelled for ASCII digits with an optional sign and surrounding whitespace. Underscores and non-ASCII digits are not modelled.
- ConfigLoader.ConfigLoader.SaveConfig: a failed write leaves the file as it was. A write that fails half-way through is not modelled.
- Cookie: the cookie is returned as the stored JSON value, without a check that it is a string.
- The basic crawler's `get_news_list` ignores its category and page for the URL it fetches. The model keeps only the category, as the records carry it.
