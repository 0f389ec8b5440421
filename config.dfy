/** The fixed, non-configurable constants of the analyzer (project_analyzer.py:19-45). */
module Config {

  /** Retry budget shared, as two independent counters, by the client and the directory loop. */
  const MAX_RETRIES: nat := 5

  /** Base of the linear backoff, in seconds. */
  const RETRY_DELAY: nat := 5

  /** Length threshold handed to the truncator for every request. */
  const MAX_CONTENT_LENGTH: nat := 8000

  /** Directory base names that are never analysed. */
  const SKIP_DIRS: set<string> := {
    "node_modules", "venv", ".git", "__pycache__", "dist", "build",
    ".idea", ".vscode", "vendor", "packages", "system"
  }

  /** File extensions (with the leading dot, lower case) that are analysed. */
  const ANALYZE_EXTENSIONS: set<string> := {
    ".py", ".js", ".jsx", ".ts", ".tsx", ".vue", ".java",
    ".cpp", ".c", ".h", ".hpp", ".cs", ".go", ".rb", ".php",
    ".html", ".css", ".scss", ".less", ".sql", ".md", ".json",
    ".yaml", ".yml", ".xml", ".sh", ".bash"
  }
}
