/**
 * The session registry: a map from session id to live session. Each method
 * is one critical section under the registry lock.
 */
module Registry {
  import opened Sessions

  /**
   * A session that can stay registered under id: it is filed under its own
   * id and has not been torn down (its stop signal and its
   * terminal are open and its process has not been killed).
   */
  ghost predicate Live(s: Session, id: string)
    reads s
  {
    s.id == id && !s.done && !s.ptmxClosed && !s.processKilled
  }

  class SessionManager {
    var sessions: map<string, Session>

    /** Every registered session is filed under its own id and is live. */
    ghost predicate Valid()
      reads this, sessions.Values
    {
      forall id :: id in sessions ==> Live(sessions[id], id)
    }

    constructor ()
      ensures Valid() && sessions == map[]
    {
      sessions := map[];
    }

    /** Registers a fresh session under its own id (ids are fresh, so nothing is overwritten). */
    method Add(sess: Session)
      requires Valid()
      requires !sess.done && !sess.ptmxClosed && !sess.processKilled
      requires sess.id !in sessions
      modifies this
      ensures Valid()
      ensures sessions == old(sessions)[sess.id := sess]
    {
      sessions := sessions[sess.id := sess];
    }

    /** Looks an id up; changes nothing. */
    method Get(id: string) returns (sess: Session?, ok: bool)
      ensures ok <==> id in sessions
      ensures ok ==> sess == sessions[id]
      ensures !ok ==> sess == null
    {
      if id in sessions {
        sess, ok := sessions[id], true;
      } else {
        sess, ok := null, false;
      }
    }

    /**
     * Tears a registered session down and deletes its entry; an absent id
     * is a no-op. Presence is checked and the entry deleted in the same
     * critical section, so the stop signal is closed at most once.
     */
    method Remove(id: string)
      requires Valid()
      modifies this, if id in sessions then {sessions[id]} else {}
      ensures Valid()
      ensures sessions == old(sessions) - {id}
      ensures id in old(sessions) ==>
        var s := old(sessions)[id];
        && s.done && s.ptmxClosed && s.processKilled == s.hasProcess
        && s.outputBuf == old(s.outputBuf) && s.exited == old(s.exited)
        && s.history == old(s.history) && s.sent == old(s.sent)
    {
      if id in sessions {
        var sess := sessions[id];
        // Closing an already closed channel panics: the registry never does it.
        assert !sess.done;
        sess.done := true;
        sess.ptmxClosed := true;
        if sess.hasProcess {
          sess.processKilled := true;
        }
        sessions := sessions - {id};
      }
    }
  }
}
