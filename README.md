# OCI usage cost: verified model of the aggregation and alert logic

The script `oci_usage_cost.py` asks Oracle Cloud's usage API for the month-to-date
cost of a tenancy. It totals the cost overall and per service, and posts a chat alert
when the total is above a configured threshold. This project models the four pieces
of that script that are logic rather than I/O, and proves properties of them:

- `Usage` (`usage.dfy`): a summarized-usage line item, with nullable service label,
  computed amount and computed quantity. `GetUsageTotals` is the loop of
  `get_usage_totals`. It is proved to compute `Total`, the running sum that skips
  nulls. `Total` is then proved equal to the plain sum of the non-null values, and
  each column is proved to depend on that column alone.
- `ServiceUsage` (`service_usage.dfy`): `GetUsageTotalsByService` is the loop of
  `get_usage_totals_by_service`. It is proved to compute `Breakdown`, the fold of one-iteration
  `Step`s. It fills two insertion-ordered dictionaries (`Dict`:
  key order plus entries) keyed by the optional service label. The method is proved
  to give both dictionaries the same keys: the labels of the items, in order of first
  appearance. Each entry is proved to be that service's sum of non-null values. The
  entries of each dictionary are proved to add up to the overall total of the same items.
- `Threshold` (`threshold.dfy`): `send_discord_if_threshold_exceeded` as a function.
  The channel's `ok` outcome is a Boolean parameter. The result records the alerts
  attempted and the Boolean returned.
- `BillingPeriod` (`billing_period.dfy`): the query's start date (the first of today's
  month) and end date (`today + timedelta(days=1)`) in Python's proleptic Gregorian
  calendar, plus the `YYYY-MM-DDT00:00:00.000Z` strings sent to the API. The end date
  is proved to be the day whose `toordinal` is one more than today's, which is how
  Python adds a day. Today is proved to lie in the half-open period. The timestamps
  are proved to read back as the dates they format, in both directions.
- `Wrappers` (`wrappers.dfy`): `Option`, used for Python's `None`.

Amounts and quantities are `real`. The API response is replaced by the sequence of
its items. Today's date is an input.

## Model

| member | source | states |
|---|---|---|
| Usage.GetUsageTotals | oci_usage_cost.py:69-80 | the two results are the totals of non-null amounts and of non-null quantities over the items, visited in order; an empty list gives (0.0, 0.0) |
| Usage.TotalIsSumOfPresent | oci_usage_cost.py:74-78 | a column's total equals the sum of exactly its non-null values; nulls are skipped, not an error |
| Usage.TotalAppend | oci_usage_cost.py:75-78 | one more item adds its own value to a column's total, or nothing when that value is null |
| Usage.TotalDependsOnlyOnItsColumn | oci_usage_cost.py:75-78 | amount and quantity accumulate independently: a column's total is the same for any two item lists that agree on that column |
| Usage.NullAmountStillAddsQuantity | oci_usage_cost.py:75-78 | an item with a null amount and a present quantity leaves the amount total alone and still adds to the quantity total |
| Usage.NullQuantityStillAddsAmount | oci_usage_cost.py:75-78 | the reverse: a null quantity and a present amount add to the amount total only |
| Usage.EmptyTotals | oci_usage_cost.py:69-70 | no items give totals (0.0, 0.0) |
| ServiceUsage.GetUsageTotalsByService | oci_usage_cost.py:97-113 | both dictionaries hold exactly the item labels, in first-appearance order, as the same key set; each entry is that label's sum of non-null values; each dictionary's entries add up to the overall total of the same items |
| ServiceUsage.Dict.Put | oci_usage_cost.py:104-111 | a dict assignment keeps the dict well formed, stores the value, leaves every other key alone, and appends a new key at the end of the order only |
| ServiceUsage.CreateIfMissing | oci_usage_cost.py:103-106 | a label seen for the first time gets an entry of 0.0 at the end of the key order; a known label and every other entry are left unchanged |
| ServiceUsage.AddPresent | oci_usage_cost.py:108-111 | a present value is added to the label's entry, a null adds nothing; keys, order and all other entries are unchanged |
| ServiceUsage.Step | oci_usage_cost.py:102-111 | one loop iteration on one dictionary changes only the entry of the current item's label: that entry becomes its old value (0.0 if new) plus the item's value |
| ServiceUsage.BreakdownIsAccumulated | oci_usage_cost.py:97-111 | the dictionary built from the items is well formed, has the labels in first-appearance order, exactly the item labels as keys, and each label's total as its entry |
| ServiceUsage.StepKeepsTotals | oci_usage_cost.py:103-111 | if every entry is its label's total over the items so far, this stays true after one more iteration |
| ServiceUsage.AccumulatedSumsToTotal | oci_usage_cost.py:97-113 | a dictionary built from all the items has entries, taken in key order, that add up to the overall total of that column over the same items |
| ServiceUsage.ServiceTotalAppend | oci_usage_cost.py:108-111 | an item changes the total of its own label by its value and no other label's total |
| ServiceUsage.OtherLabelsUnchanged | oci_usage_cost.py:108-111 | the entries of labels other than the current item's are unchanged by the item |
| ServiceUsage.ForServiceAbsent | oci_usage_cost.py:103-106 | a label that no item carries selects no items |
| ServiceUsage.AllNullServiceIsZero | oci_usage_cost.py:103-111 | a label whose items all carry null in a column maps to 0.0 in that column |
| ServiceUsage.FirstAppearanceIsLabels | oci_usage_cost.py:102-106 | the key order lists every label of the items once and nothing else |
| ServiceUsage.ServiceTotalsSumToTotal | oci_usage_cost.py:74-78 | summing the per-service totals over all labels gives the overall total of the same items |
| Threshold.SendIfThresholdExceeded | oci_usage_cost.py:161-185 | an alert is attempted exactly once when the total is strictly above the threshold and never otherwise; the result is true iff the threshold was exceeded and the channel reported ok |
| Threshold.AtThresholdNoAlert | oci_usage_cost.py:162 | a total equal to the threshold sends nothing and returns false |
| Threshold.ChannelIrrelevantAtOrBelow | oci_usage_cost.py:162-185 | at or below the threshold the channel is not consulted: its outcome cannot change the result |
| Threshold.ChannelFailureReturnsFalse | oci_usage_cost.py:164-184 | above the threshold with a failing channel, one alert is attempted and the result is false |
| Threshold.AlertMonotoneInTotal | oci_usage_cost.py:162 | a larger total never sends fewer alerts or withdraws a successful notification |
| BillingPeriod.NextDay | oci_usage_cost.py:53 | the end date is a valid date after today, and it is missing (Python's OverflowError) exactly for 9999-12-31 |
| BillingPeriod.StartDate | oci_usage_cost.py:52 | the start date is a valid date with day 1 in today's year and month |
| BillingPeriod.NextDayIsNextOrdinal | oci_usage_cost.py:53 | the end date's ordinal is today's plus one, with month, year and leap-day rollover; overflow happens exactly at the largest ordinal |
| BillingPeriod.EndDateIsTheDayAfter | oci_usage_cost.py:53 | the end date is the one valid date whose ordinal follows today's |
| BillingPeriod.TodayInBillingPeriod | oci_usage_cost.py:51-53 | start <= today < end by ordinal; the start is today.day - 1 days back and the end one day ahead |
| BillingPeriod.OrdinalMonotone | oci_usage_cost.py:51-53 | the day ordinal follows calendar order, so comparing ordinals compares dates |
| BillingPeriod.OrdinalInjective | oci_usage_cost.py:51-53 | two valid dates with the same ordinal are the same date |
| BillingPeriod.YearStep | oci_usage_cost.py:53 | the days before next year are the days before this year plus this year's length, leap years included |
| BillingPeriod.Timestamp | oci_usage_cost.py:60-61 | a valid date formats to a 24-character `YYYY-MM-DDT00:00:00.000Z` string that reads back as that date |
| BillingPeriod.ParseTimestampRoundTrip | oci_usage_cost.py:60-61 | any string that reads back as a date is exactly that date's timestamp |
| BillingPeriod.DigitsRoundTrip | oci_usage_cost.py:60-61 | zero-padded decimal formatting of a number that fits the width is read back as that number |
| BillingPeriod.BillingPeriodTimestamps | oci_usage_cost.py:51-61 | the two query bounds exist unless today is 9999-12-31, and they read back as the first of the month and the next day |

## Left out

- Loading the environment variables, the threshold and the cloud config file, with its two-path lookup and `FileNotFoundError` (lines 30-48). This is process configuration and filesystem access.
- The usage API client and the `request_summarized_usages` calls (lines 58-66, 85-94). They are a foreign SDK over the network, so the items are an input sequence instead.
- The HTTP bodies of `send_discord_notification` and `send_n8n_notification`, and the health-check ping (lines 116-158, 236-240). These are network I/O. The chat channel is the Boolean `channelOk`.
- `JsonFormatter`, logging and the JSON log events (lines 11-28, 198-223). They are a logging-library wrapper.
- Threshold.SendIfThresholdExceeded: the alert text (the amount with `:.2f` and the threshold) is reduced to the two numbers it reports, because float formatting is not modelled.
- Floating-point rounding in the sums and in `float(os.environ["THRESHOLD"])`, including NaN. Amounts are exact reals.
- Reading today's date from the wall clock (line 51). Today is a parameter.
- The order in which `main` sequences its calls (lines 188-240). It only orders I/O. One consequence is not modelled: when the threshold is exceeded but the chat post fails, `main` logs both the failure and a `threshold_not_exceeded` event, because it only looks at the Boolean.
- Both aggregations run here on one list of items. The program sends two separate usage queries, one ungrouped (lines 58-66) and one grouped by service (lines 85-94), and never checks that the per-service sums agree with the overall total. The agreement is proved only for a shared list with exact arithmetic.
- BillingPeriod.Timestamp: `%Y` always gives four zero-padded digits here. On some platforms Python prints years below 1000 without padding.
