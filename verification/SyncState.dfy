/** One newsgroup's row of `sync_state`: the three checkpoints. A group without a row reads as
    zeros, and zero means "not started" for each of them. */
module SyncStates {

  class SyncState {
    var forward: int     // last_article_num
    var backfill: int    // backfill_article_num
    var sweep: int       // dispose_sweep_article_num

    constructor ()
      ensures forward == 0 && backfill == 0 && sweep == 0
    {
      forward, backfill, sweep := 0, 0, 0;
    }
  }
}
