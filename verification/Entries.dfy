/** The log entry that all components pass on. */
module Entries {
  datatype LogEntry = LogEntry(
    timestamp: int,
    message: string,
    level: string,
    source: string,
    containerName: string,
    podName: string,
    namespace: string,
    labels: map<string, string>)
}
