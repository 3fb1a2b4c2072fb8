/** The worker's fixed names: cache versions, the install asset list, the
    background-sync tags and the API paths it talks to. */
module Config {

  const CacheName: string := "taskpilot-v2.0"
  const StaticCache: string := "taskpilot-static-v2.0"
  const DynamicCache: string := "taskpilot-dynamic-v2.0"

  /** The names activation keeps: all three constants, not only the two the
      worker ever writes to. */
  const CurrentCaches: set<string> := {CacheName, StaticCache, DynamicCache}

  const StaticAssets: seq<string> := [
    "/",
    "/index.html",
    "/manifest.json",
    "/icons/icon-192.png",
    "/icons/apple-touch-icon.png",
    "https://cdnjs.cloudflare.com/ajax/libs/font-awesome/6.4.0/css/all.min.css",
    "https://fonts.googleapis.com/css2?family=Inter:wght@300;400;500;600;700&family=Space+Grotesk:wght@400;500;600;700&display=swap"
  ]

  /** The offline page served to navigations that nothing else answers. */
  const OfflinePage: string := "/index.html"

  const ExtensionScheme: string := "chrome-extension://"
  const HealthPath: string := "/sw-health"

  const SyncTasksTag: string := "sync-tasks"
  const SyncNotesTag: string := "sync-notes"
  const WeeklyRefreshTag: string := "weekly-refresh"

  const TasksApi: string := "/api/tasks"
  const NotesApi: string := "/api/notes"
  const WeeklyTasksApi: string := "/api/weekly-tasks"
  const StatsApi: string := "/api/stats"
}
