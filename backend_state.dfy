/**
 * The database as one signed-in user's request sees it: that user's credit balance and
 * data-source count, who owns which notebook, and the content records of every user.
 */
module BackendState {
  import opened Wrappers
  import opened Text
  import opened ContentModel
  import opened Qdrant
  import opened Embeddings

  /** A user may hold at most this many data sources. */
  const MaxDataSources: nat := 20

  datatype Db = Db(userId: string, credits: real, dataSourcesCount: int,
                   notebooks: map<string, string>, contents: map<string, Content>)

  /** `Notebook.findOne({ _id: notebookId, userId })` finds a notebook. */
  predicate OwnsNotebook(db: Db, notebookId: string) {
    notebookId in db.notebooks && db.notebooks[notebookId] == db.userId
  }

  /** `Content.findOne({ _id: id, userId })` finds a record. */
  predicate OwnsContent(db: Db, id: string) {
    id in db.contents && db.contents[id].userId == db.userId
  }

  /**
   * A record no request is working on any more: completed with its vector collection
   * named after it, or failed with the embedding error that stopped it.
   */
  predicate Settled(id: string, c: Content) {
    && c.id == id
    && c.status != Processing
    && (c.status == Completed ==>
          && c.qdrantCollectionName == Some(CollectionName(id)) && c.errorMessage.None?
          && c.chunkCount > 0)
    && (c.status == Failed ==>
          && c.errorMessage.Some? && StartsWith(c.errorMessage.value, EmbedErrorPrefix)
          && c.qdrantCollectionName.None? && c.chunkCount == 0 && c.tokensUsed == 0)
  }

  /** What holds between requests. */
  predicate Consistent(db: Db) {
    && 0 <= db.dataSourcesCount <= MaxDataSources
    && forall id :: id in db.contents ==> Settled(id, db.contents[id])
  }

  /** Storing a settled record, with the count still in range, keeps the database consistent. */
  lemma StoreSettled(db: Db, id: string, c: Content, count: int)
    requires Consistent(db) && Settled(id, c) && 0 <= count <= MaxDataSources
    ensures Consistent(db.(contents := db.contents[id := c], dataSourcesCount := count))
  {
    var after := db.(contents := db.contents[id := c], dataSourcesCount := count);
    forall k | k in after.contents
      ensures Settled(k, after.contents[k])
    {
      if k != id {
        assert after.contents[k] == db.contents[k];
      }
    }
  }

  /** The stored state that the controllers read and update. */
  class Backend {
    var userId: string
    var credits: real
    var dataSourcesCount: int
    var notebooks: map<string, string>
    var contents: map<string, Content>

    function State(): Db
      reads this
    {
      Db(userId, credits, dataSourcesCount, notebooks, contents)
    }

    /** A user with a balance, some notebooks, and nothing ingested yet. */
    constructor (userId: string, credits: real, notebooks: map<string, string>)
      ensures State() == Db(userId, credits, 0, notebooks, map[])
      ensures Consistent(State())
    {
      this.userId := userId;
      this.credits := credits;
      this.dataSourcesCount := 0;
      this.notebooks := notebooks;
      this.contents := map[];
    }
  }
}
