/** InjectTracingToPod: at most one of the two tracing libraries, with DDTrace first. */
module Tracing {
  import opened Pods
  import opened TracingRules
  import DDTrace
  import OTel

  function InjectTracing(config: Config, requested: string, pod: Pod): Pod {
    if HasInitContainer(pod, DDTRACE_INIT) then DDTrace.Process(config, requested, pod).pod
    else
      var outcome := DDTrace.Process(config, requested, pod);
      if outcome.selected then outcome.pod else OTel.Process(config, requested, outcome.pod)
  }
}
