/** The two calls to the hosted text model (services/geminiService.ts) as oracles. The
    model's replies arrive as parameters; what is modelled is how the service turns a
    failed or empty reply into its fixed fallback. */
module Gemini {
  import opened Types

  /** What analyzeTranscript returns when the call fails (geminiService.ts:56-58). */
  function AnalysisFailed(): (r: AnalysisResult)
    ensures !r.isAggressive && r.stressAdjustment == 0
  {
    AnalysisResult(false, 0.0, "Analysis failed.", 0)
  }

  /** The message generateManagerNotification returns for a zone, given the model's
      reply: None when the call failed (geminiService.ts:62-71). An empty reply is falsy
      and gets the fallback too. */
  function ManagerNotification(zoneName: string, reply: Option<string>): (note: string)
    ensures reply.Some? && reply.value != "" ==> note == reply.value
    ensures reply.None? || reply.value == "" ==>
              note == "Employee is utilizing " + zoneName + " for regulation."
    ensures note != ""
  {
    if reply.Some? && reply.value != "" then reply.value
    else "Employee is utilizing " + zoneName + " for regulation."
  }
}
