/**
 * The article table shared by the generator script and the Flask service:
 * which web page to scrape for each topic and sub-topic.
 */
module Articles {
  import opened Common

  /** The address of a GeeksforGeeks article, as the table writes it. */
  function Gfg(slug: string): (url: string)
    ensures |url| > 0
  {
    "https://www.geeksforgeeks.org/" + slug + "/?ref=lbp"
  }

  /** The OS articles. */
  const OsUrls: map<string, string> := map[
    "OS Basics" := Gfg("what-is-an-operating-system"),
    "Structure of Operating Systems" := Gfg("operating-system-services"),
    "Types of OS" := Gfg("batch-processing-operating-system"),
    "Process Management" := Gfg("introduction-of-process-management"),
    "CPU Scheduling in OS" := Gfg("cpu-scheduling-in-operating-systems"),
    "Threads in OS" := Gfg("thread-in-operating-system"),
    "Process Synchronization" := Gfg("introduction-of-process-synchronization"),
    "Critical Section Problem Execution" := Gfg("petersons-algorithm-in-process-synchronization"),
    "Deadlocks & Deadlock Handling Methods" := Gfg("introduction-of-deadlock-in-operating-system"),
    "Memory Management" := Gfg("memory-management-in-operating-system"),
    "Page Replacement Algorithms" := Gfg("page-replacement-algorithms-in-operating-systems"),
    "Storage Management" := Gfg("storage-management")
  ]

  /** The DBMS articles. */
  const DbmsUrls: map<string, string> := map[
    "Basics of DBMS" := Gfg("introduction-of-dbms-database-management-system-set-1"),
    "Entity Relationship Model" := Gfg("introduction-of-er-model"),
    "Relational Model" := Gfg("introduction-of-relational-model-and-codd-rules-in-dbms"),
    "Relational Algebra" := Gfg("introduction-of-relational-algebra-in-dbms"),
    "Functional Dependencies" := Gfg("functional-dependency-and-attribute-closure"),
    "Normalisation" := Gfg("introduction-of-database-normalization"),
    "Transactions and Concurrency Control" := Gfg("concurrency-control-in-dbms"),
    "Indexing, B and B+ Trees" := Gfg("indexing-in-databases-set-1"),
    "File Organisation" := Gfg("file-organization-in-dbms-set-1")
  ]

  /** The article for each topic and sub-topic. */
  const Urls: map<string, map<string, string>> := map["OS" := OsUrls, "DBMS" := DbmsUrls]

  /** A pair the table knows. */
  predicate KnownPair(topic: string, subTopic: string) {
    topic in Urls && subTopic in Urls[topic]
  }

  /**
   * `urls.get(topic, {}).get(subTopic, None)` followed by the falsiness
   * test: a URL exactly for the pairs the table lists, since no URL in it is
   * empty.
   */
  function LookupUrl(topic: string, subTopic: string): (url: Option<string>)
    ensures url.Some? <==> KnownPair(topic, subTopic)
    ensures url.Some? ==> url.value == Urls[topic][subTopic]
  {
    var inner := if topic in Urls then Urls[topic] else map[];
    if subTopic in inner && inner[subTopic] != "" then Some(inner[subTopic]) else None
  }


  /** No topic or sub-topic of the table is empty, so a known pair passes a falsiness test on its names. */
  lemma KnownNamesAreNonEmpty(topic: string, subTopic: string)
    requires KnownPair(topic, subTopic)
    ensures topic != "" && subTopic != ""
  {
    assert "" !in Urls;
    if topic == "OS" {
      assert "" !in OsUrls;
    } else {
      assert "" !in DbmsUrls;
    }
  }
}
