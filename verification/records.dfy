/** The two records the analyser produces (backend/ai_analyzer.py, the
    `Keyword` and `BulletImprovement` dataclasses). */
module Records {

  /** A skill the job asks for: its name, how much it matters, how often the
      job mentions it, and a short note. */
  datatype Keyword = Keyword(keyword: string, importance: string, frequency: nat, context: string)

  /** A rewritten résumé bullet with the reason for the change and an impact score. */
  datatype BulletImprovement = BulletImprovement(original: string, improved: string, reason: string, impact: nat)
}
