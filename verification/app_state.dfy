/** app/state.rs: the flag the main loop polls to decide whether to keep running. */
module AppState {
  /** `AppSharedState`. */
  datatype AppSharedState = AppSharedState(running: bool)

  /** `AppSharedState::new`. */
  function New(): (s: AppSharedState)
    ensures !IsRunning(s)
  {
    AppSharedState(false)
  }

  /** `is_running`. */
  predicate IsRunning(s: AppSharedState) {
    s.running
  }

  /** `start_running`. */
  function StartRunning(s: AppSharedState): (r: AppSharedState)
    ensures IsRunning(r)
  {
    s.(running := true)
  }

  /** `stop_running`. */
  function StopRunning(s: AppSharedState): (r: AppSharedState)
    ensures !IsRunning(r)
  {
    s.(running := false)
  }

  /** Both setters are idempotent, and the flag reflects whichever was applied last. */
  lemma SettersIdempotent(s: AppSharedState)
    ensures StartRunning(StartRunning(s)) == StartRunning(s)
    ensures StopRunning(StopRunning(s)) == StopRunning(s)
    ensures IsRunning(StartRunning(StopRunning(s))) && !IsRunning(StopRunning(StartRunning(s)))
  {
  }
}
