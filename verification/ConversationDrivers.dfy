/** The drivers of a thread are callers, and a thread is a conversation key: when do two tenants meet
    on one? */
module ConversationDrivers {
  import opened CallOnce
  import Ids = IdempotencyKey
  import opened JsonText
  import opened ThreadDrivers
  import opened WriteAhead

  /** Each caller resumes under its own tenant the thread that its ids spell. */
  ghost function Admitted(callers: iset<Ids.Caller>): iset<(Tenant, Thread)> {
    iset c: Ids.Caller | c in callers :: (c.tenant, Ids.ConversationKey(c))
  }

  ghost const EVERYBODY: iset<Ids.Caller> := iset c: Ids.Caller | true

  /** The hash keeps tenants apart on this thread. */
  ghost predicate TellsTenantsApart(cfg: Config, t: Thread) {
    forall p, q | cfg.lockKey(p, t) == cfg.lockKey(q, t) :: p == q
  }

  /** Callers without a slash in tenant and agent never meet another tenant: whatever they resume and
      however they crash, no write of theirs fires twice. */
  lemma CleanCallersFireOnce(cfg: Config, callers: iset<Ids.Caller>, k: Key)
    requires cfg.durable && !cfg.idempotent(k)
    requires forall c | c in callers :: SLASH !in c.tenant && SLASH !in c.agent
    ensures FiresOnce(cfg, Admitted(callers), k)
  {
    forall p, q | (p, k.thread) in Admitted(callers) && (q, k.thread) in Admitted(callers)
      ensures cfg.lockKey(p, k.thread) == cfg.lockKey(q, k.thread)
    {
      var c :| c in callers && (c.tenant, Ids.ConversationKey(c)) == (p, k.thread);
      var d :| d in callers && (d.tenant, Ids.ConversationKey(d)) == (q, k.thread);
      Ids.ConversationsAgreeIff(c, d);
    }
    ExactlyOnceIffOneLock(cfg, Admitted(callers), k);
  }

  /** With everybody allowed in, the writes of a caller's conversation are safe exactly when none of
      the caller's own three ids holds a slash. */
  lemma SafeAmongAllIffNoSlash(cfg: Config, c: Ids.Caller, k: Key)
    requires cfg.durable && !cfg.idempotent(k) && k.thread == Ids.ConversationKey(c)
    requires TellsTenantsApart(cfg, k.thread)
    ensures FiresOnce(cfg, Admitted(EVERYBODY), k) <==> Ids.Avoids(Ids.Fields(c), SLASH)
  {
    var t := k.thread;
    ExactlyOnceIffOneLock(cfg, Admitted(EVERYBODY), k);
    if Ids.Avoids(Ids.Fields(c), SLASH) {
      Ids.UnmistakableIffNoSlash(c);
      forall p | (p, t) in Admitted(EVERYBODY) ensures p == c.tenant {
        var d :| d in EVERYBODY && (d.tenant, Ids.ConversationKey(d)) == (p, t);
        assert d == c;
      }
    } else {
      var d := Ids.Mistaken(c);
      assert c in EVERYBODY && d in EVERYBODY;
      assert (c.tenant, t) in Admitted(EVERYBODY) && (d.tenant, t) in Admitted(EVERYBODY);
    }
  }

  /** Four texts, two tenants, one conversation: `p/q` and `p` both take a lock, not the same one, and
      the write fires twice over a durable ledger. */
  lemma TwoTenantsFireTwice(cfg: Config, run: seq<State>, p: Text, q: Text, r: Text, s: Text, k: Key)
    requires var one, two := Ids.Caller(p + ([SLASH] + q), r, s), Ids.Caller(p, q, r + ([SLASH] + s));
             && k.thread == Ids.ConversationKey(one) && !cfg.idempotent(k)
             && cfg.lockKey(one.tenant, k.thread) != cfg.lockKey(two.tenant, k.thread)
             && IsRun(cfg, [Resume(0, one.tenant, Ids.ConversationKey(one)), Resume(1, two.tenant, Ids.ConversationKey(two))]
                           + Duel(0, 1, k), run)
    ensures run[12].log[Fired(k)] == 2
  {
    Ids.SlashMoves(p, q, r, s);
    TwoLocksFireTwice(cfg, run, 0, 1, p + ([SLASH] + q), p, k);
  }
}
