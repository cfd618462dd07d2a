/** The configuration schema, section by section (internal/config/yaml.go). No
    section lists a name twice, so the laws about documents hold of it. */
module ConfigSchema {
  import opened Basics
  import opened YamlTree

  /** Fields without children. */
  function LeafFields(names: seq<string>): (fields: seq<Field>)
    ensures Distinct(names) ==> UniqueNames(fields)
  {
    seq(|names|, i requires 0 <= i < |names| => Field(names[i], []))
  }

  /** Fields without children, then the sections. */
  function Section(names: seq<string>, sections: seq<Field>): (fields: seq<Field>)
    ensures Distinct(names) && UniqueNames(sections)
            && (forall i, j | 0 <= i < |names| && 0 <= j < |sections| :: names[i] != sections[j].name)
            ==> UniqueNames(fields)
  {
    LeafFields(names) + sections
  }

  const STATE := LeafFields(["dir", "db"])
  const MODEL_BUDGET := LeafFields(["max_request_percent"])
  const RECOVERABLE_RESULTS := LeafFields([
    "max_result_bytes", "chunk_max_bytes", "retention_days", "cleanup_batch_size"
  ])
  const ADK_COMPACTION := LeafFields([
    "enabled", "max_history_chars", "recent_turns", "summary_enabled", "summary_max_chars",
    "summary_budget_tokens"
  ])
  const CONTEXT_FEATURES := LeafFields([
    "model_budget_enabled", "recoverable_results_enabled", "continuity_capsule_enabled"
  ])
  const CONTEXT := Section(["max_messages", "max_chars", "retain_messages_per_conversation"], [
    Field("model_budget", MODEL_BUDGET), Field("recoverable_results", RECOVERABLE_RESULTS),
    Field("adk_compaction", ADK_COMPACTION), Field("context_features", CONTEXT_FEATURES)
  ])
  const RUNTIME := LeafFields([
    "log_level", "model_timeout_seconds", "slack_api_timeout_seconds", "max_concurrent_model_calls",
    "shutdown_grace_seconds", "busy_message", "model_error_message"
  ])
  const STANDARD_AGENT := LeafFields([
    "threaded_dm", "progress_enabled", "prompts_enabled", "suggested_prompts", "streaming_enabled",
    "update_interval_seconds", "progress_labels"
  ])
  const SLACK_CONTEXT := LeafFields([
    "enabled", "max_chars", "timeout_seconds", "profile_cache_ttl_minutes", "conversation_cache_ttl_minutes"
  ])
  const FILES := LeafFields([
    "max_bytes_per_file", "max_processed_chars", "transcription_profile", "transcription_timeout_seconds"
  ])
  const SLACK := Section([
    "app_name", "bot_display_name", "unauthorized_message", "allow_all_users", "allowed_user_ids",
    "allowed_team_ids", "allowed_channel_ids", "part_labels"
  ], [
    Field("standard_agent", STANDARD_AGENT), Field("context", SLACK_CONTEXT), Field("files", FILES)
  ])
  const SANDBOX := LeafFields(["enabled", "projects", "command_timeout_seconds", "max_output_bytes"])
  const CANVASES := LeafFields([
    "enabled", "max_title_chars", "max_content_chars", "max_content_bytes", "timeout_seconds"
  ])
  const EXPORTS := LeafFields(["enabled", "max_filename_chars", "max_content_bytes", "timeout_seconds"])
  const BATCH := LeafFields(["max_tasks"])
  const DELIVERY := LeafFields(["max_markdown_parts", "max_file_bytes"])
  const EXTERNAL_AGENT := Section([
    "max_inline_result_bytes", "max_result_artifact_bytes", "default_job_timeout_seconds",
    "max_job_timeout_seconds", "reconciliation_timeout_seconds", "progress_warning_seconds",
    "worker_concurrency", "artifact_retention_days"
  ], [
    Field("batch", BATCH), Field("delivery", DELIVERY)
  ])
  const CODE_INTELLIGENCE := LeafFields([
    "enabled", "max_processes", "initialization_timeout_seconds", "request_timeout_seconds", "lsp_servers",
    "lsp_routes"
  ])
  const WORKSTREAMS := LeafFields(["enabled", "max_non_terminal_tasks", "max_dependencies_per_task"])
  const RESULT_HANDLES := LeafFields([
    "enabled", "max_producing_calls_per_step", "producing_call_reserve_tokens"
  ])
  const EMBEDDING := LeafFields([
    "enabled", "provider_id", "base_url", "api_key_env", "model", "dimensions", "min_similarity_basis_points",
    "timeout_seconds"
  ])
  const RETRIEVAL := Section([
    "enabled", "timeout_seconds", "max_query_runes", "max_candidates_per_channel", "max_cards",
    "max_document_bytes", "worker_interval_seconds", "worker_max_retries", "worker_batch_size"
  ], [
    Field("embedding", EMBEDDING)
  ])
  const KNOWLEDGE := Section([
    "enabled", "projection_interval_seconds", "projection_max_retries", "projection_retention_days",
    "max_card_tokens"
  ], [
    Field("retrieval", RETRIEVAL)
  ])
  const EVIDENCE := LeafFields(["excerpt_bytes", "selectors_per_leaf", "references_per_packet", "bundle_bytes"])
  const ANALYSIS_MODEL := LeafFields([
    "enabled", "provider_id", "base_url", "api_key_env", "model", "reasoning_effort"
  ])
  const RESULT_ANALYSIS := Section([
    "enabled", "max_segment_bytes", "overlap_basis_points", "overlap_max_bytes", "max_leaves",
    "max_reduction_fan_in", "max_reduction_depth", "max_concurrent_leaves", "max_attempts_per_step",
    "call_timeout_seconds", "wall_time_seconds", "worker_interval_seconds"
  ], [
    Field("evidence", EVIDENCE), Field("model", ANALYSIS_MODEL)
  ])
  const ORCHESTRATION := [
    Field("workstreams", WORKSTREAMS), Field("result_handles", RESULT_HANDLES), Field("knowledge", KNOWLEDGE),
    Field("result_analysis", RESULT_ANALYSIS)
  ]

  /** The top level over its sections. */
  function Top(state: seq<Field>, context: seq<Field>, runtime: seq<Field>, slack: seq<Field>,
               sandbox: seq<Field>, canvases: seq<Field>, exports: seq<Field>, agent: seq<Field>,
               code: seq<Field>, orchestration: seq<Field>): seq<Field>
  {
    [ Field("state", state), Field("context", context), Field("runtime", runtime), Field("slack", slack),
      Field("sandbox", sandbox), Field("canvases", canvases), Field("exports", exports),
      Field("external_agent", agent), Field("code_intelligence", code), Field("orchestration", orchestration) ]
  }

  const CONFIG := Top(STATE, CONTEXT, RUNTIME, SLACK, SANDBOX, CANVASES, EXPORTS, EXTERNAL_AGENT, CODE_INTELLIGENCE,
                      ORCHESTRATION)

  // ---- No name twice -----------------------------------------------------

  lemma ContextLeaves()
    ensures UniqueNames(MODEL_BUDGET) && UniqueNames(RECOVERABLE_RESULTS) && UniqueNames(ADK_COMPACTION)
    ensures UniqueNames(CONTEXT_FEATURES)
  {
    hide LeafFields, UniqueNames;
  }

  lemma ContextUnique()
    ensures UniqueNames(CONTEXT)
  {
    hide LeafFields, Section;
    ContextLeaves();
  }

  lemma SlackLeaves()
    ensures UniqueNames(STANDARD_AGENT) && UniqueNames(SLACK_CONTEXT) && UniqueNames(FILES)
  {
    hide LeafFields, UniqueNames;
  }

  lemma SlackUnique()
    ensures UniqueNames(SLACK)
  {
    hide LeafFields, Section;
    SlackLeaves();
  }

  lemma ExternalAgentLeaves()
    ensures UniqueNames(BATCH) && UniqueNames(DELIVERY)
  {
    hide LeafFields, UniqueNames;
  }

  lemma ExternalAgentUnique()
    ensures UniqueNames(EXTERNAL_AGENT)
  {
    hide LeafFields, Section;
    ExternalAgentLeaves();
  }

  lemma OrchestrationLeaves()
    ensures UniqueNames(WORKSTREAMS) && UniqueNames(RESULT_HANDLES) && UniqueNames(EMBEDDING)
    ensures UniqueNames(EVIDENCE) && UniqueNames(ANALYSIS_MODEL)
  {
    hide LeafFields, UniqueNames;
  }

  lemma RetrievalUnique()
    ensures UniqueNames(RETRIEVAL)
  {
    hide LeafFields, Section;
    OrchestrationLeaves();
  }

  lemma KnowledgeUnique()
    ensures UniqueNames(KNOWLEDGE)
  {
    hide LeafFields, Section;
    RetrievalUnique();
  }

  lemma ResultAnalysisUnique()
    ensures UniqueNames(RESULT_ANALYSIS)
  {
    hide LeafFields, Section;
    OrchestrationLeaves();
  }

  lemma OrchestrationUnique()
    ensures UniqueNames(ORCHESTRATION)
  {
    hide LeafFields, Section;
    OrchestrationLeaves();
    KnowledgeUnique();
    ResultAnalysisUnique();
  }

  lemma ConfigLeaves()
    ensures UniqueNames(STATE) && UniqueNames(RUNTIME) && UniqueNames(SANDBOX)
    ensures UniqueNames(CANVASES) && UniqueNames(EXPORTS) && UniqueNames(CODE_INTELLIGENCE)
  {
    hide LeafFields, UniqueNames;
  }

  lemma TopApart(state: seq<Field>, context: seq<Field>, runtime: seq<Field>, slack: seq<Field>,
                 sandbox: seq<Field>, canvases: seq<Field>, exports: seq<Field>, agent: seq<Field>,
                 code: seq<Field>, orchestration: seq<Field>)
    ensures var top := Top(state, context, runtime, slack, sandbox, canvases, exports, agent, code, orchestration);
            forall i, j | 0 <= i < j < |top| :: top[i].name != top[j].name
  {
  }

  lemma TopUnique(state: seq<Field>, context: seq<Field>, runtime: seq<Field>, slack: seq<Field>,
                  sandbox: seq<Field>, canvases: seq<Field>, exports: seq<Field>, agent: seq<Field>,
                  code: seq<Field>, orchestration: seq<Field>)
    requires UniqueNames(state) && UniqueNames(context) && UniqueNames(runtime) && UniqueNames(slack)
    requires UniqueNames(sandbox) && UniqueNames(canvases) && UniqueNames(exports) && UniqueNames(agent)
    requires UniqueNames(code) && UniqueNames(orchestration)
    ensures UniqueNames(Top(state, context, runtime, slack, sandbox, canvases, exports, agent, code, orchestration))
  {
    TopApart(state, context, runtime, slack, sandbox, canvases, exports, agent, code, orchestration);
  }

  lemma LastSection(state: seq<Field>, context: seq<Field>, runtime: seq<Field>, slack: seq<Field>,
                    sandbox: seq<Field>, canvases: seq<Field>, exports: seq<Field>, agent: seq<Field>,
                    code: seq<Field>, orchestration: seq<Field>)
    ensures var top := Top(state, context, runtime, slack, sandbox, canvases, exports, agent, code, orchestration);
            |top| == 10 && top[9] == Field("orchestration", orchestration)
  {
  }

  lemma ConfigUnique()
    ensures UniqueNames(CONFIG)
  {
    hide LeafFields, Section, UniqueNames, Top;
    ContextUnique();
    SlackUnique();
    ExternalAgentUnique();
    OrchestrationUnique();
    ConfigLeaves();
    TopUnique(STATE, CONTEXT, RUNTIME, SLACK, SANDBOX, CANVASES, EXPORTS, EXTERNAL_AGENT, CODE_INTELLIGENCE,
              ORCHESTRATION);
  }
}
